/** The first pass of `SvgWriter::write`: which staff lines are painted, per system and
    staff, either once for the whole system or measure by measure. Geometry is left out;
    a draw records which system, staff and measure it paints. */
module StaffLinesPass {

  /** An entry of a system's measure chain: a real measure (with the staves it is visible
      on) or a box. */
  datatype MeasureBase = MeasureBase(isMeasure: bool, visibleStaves: set<int>)

  /** A system: `show()` of each of its staves, and its measure chain starting at
      `firstMeasure()` and following `nextMeasure`, empty when there is no first measure. */
  datatype SystemLayout = SystemLayout(staffShown: seq<bool>, chain: seq<MeasureBase>)

  datatype StaffLinesDraw =
    | MeasureLines(system: nat, staff: nat, measure: nat)
    | SystemLines(system: nat, staff: nat)

  /** A measure whose own staff lines are painted in per-measure mode. */
  predicate VisibleMeasure(m: MeasureBase, staff: int) {
    m.isMeasure && staff in m.visibleStaves
  }

  /** Some entry of the chain is a box or a measure invisible on `staff`. */
  predicate NeedsByMeasure(chain: seq<MeasureBase>, staff: int) {
    exists i :: 0 <= i < |chain| && !VisibleMeasure(chain[i], staff)
  }

  /** The `byMeasure` loop, which stops at the first box or invisible measure. */
  method ByMeasure(chain: seq<MeasureBase>, staff: int) returns (byMeasure: bool)
    ensures byMeasure <==> NeedsByMeasure(chain, staff)
  {
    byMeasure := false;
    var i := 0;
    while i < |chain|
      invariant 0 <= i <= |chain|
      invariant forall k :: 0 <= k < i ==> VisibleMeasure(chain[k], staff)
    {
      if !VisibleMeasure(chain[i], staff) {
        byMeasure := true;
        break;
      }
      i := i + 1;
    }
  }

  /** A staff of a system gets staff lines at all: visible in the score, shown in the
      system, and the system has a first measure. */
  predicate StaffPainted(sys: SystemLayout, staff: nat, scoreStaffShown: seq<bool>)
    requires staff < |sys.staffShown| <= |scoreStaffShown|
  {
    scoreStaffShown[staff] && sys.staffShown[staff] && |sys.chain| > 0
  }

  /** The per-measure draws for the first `n` entries of the chain. */
  function MeasureDraws(s: nat, staff: nat, chain: seq<MeasureBase>, n: nat): seq<StaffLinesDraw>
    requires n <= |chain|
  {
    if n == 0 then []
    else MeasureDraws(s, staff, chain, n - 1)
         + (if VisibleMeasure(chain[n - 1], staff) then [MeasureLines(s, staff, n - 1)] else [])
  }

  /** The draws for one staff of system `s`. */
  function StaffDraws(s: nat, sys: SystemLayout, staff: nat, scoreStaffShown: seq<bool>): seq<StaffLinesDraw>
    requires staff < |sys.staffShown| <= |scoreStaffShown|
  {
    if !StaffPainted(sys, staff, scoreStaffShown) then []
    else if NeedsByMeasure(sys.chain, staff) then MeasureDraws(s, staff, sys.chain, |sys.chain|)
    else [SystemLines(s, staff)]
  }

  /** The draws for the first `n` staves of system `s`. */
  function SystemDraws(s: nat, sys: SystemLayout, scoreStaffShown: seq<bool>, n: nat): seq<StaffLinesDraw>
    requires n <= |sys.staffShown| <= |scoreStaffShown|
  {
    if n == 0 then []
    else SystemDraws(s, sys, scoreStaffShown, n - 1) + StaffDraws(s, sys, n - 1, scoreStaffShown)
  }

  /** Every system has no more staves than the score. */
  predicate StavesKnown(systems: seq<SystemLayout>, scoreStaffShown: seq<bool>) {
    forall s :: 0 <= s < |systems| ==> |systems[s].staffShown| <= |scoreStaffShown|
  }

  /** The draws for the first `n` systems of the page. */
  function PageDraws(systems: seq<SystemLayout>, scoreStaffShown: seq<bool>, n: nat): seq<StaffLinesDraw>
    requires n <= |systems| && StavesKnown(systems, scoreStaffShown)
  {
    if n == 0 then []
    else PageDraws(systems, scoreStaffShown, n - 1) + SystemDraws(n - 1, systems[n - 1], scoreStaffShown, |systems[n - 1].staffShown|)
  }

  /** Per-measure drawing: the staff lines of every measure of the chain visible on `staff`. */
  method DrawByMeasure(s: nat, staff: nat, chain: seq<MeasureBase>) returns (draws: seq<StaffLinesDraw>)
    ensures draws == MeasureDraws(s, staff, chain, |chain|)
  {
    draws := [];
    var m := 0;
    while m < |chain|
      invariant 0 <= m <= |chain|
      invariant draws == MeasureDraws(s, staff, chain, m)
    {
      if VisibleMeasure(chain[m], staff) {
        draws := draws + [MeasureLines(s, staff, m)];
      }
      m := m + 1;
    }
  }

  /** One staff of system `s`: skipped, drawn by measure, or drawn once for the system. */
  method DrawStaff(s: nat, sys: SystemLayout, staff: nat, scoreStaffShown: seq<bool>) returns (draws: seq<StaffLinesDraw>)
    requires staff < |sys.staffShown| <= |scoreStaffShown|
    ensures draws == StaffDraws(s, sys, staff, scoreStaffShown)
  {
    if !scoreStaffShown[staff] || !sys.staffShown[staff] || |sys.chain| == 0 {
      return [];
    }
    var byMeasure := ByMeasure(sys.chain, staff);
    if byMeasure {
      draws := DrawByMeasure(s, staff, sys.chain);
    } else {
      draws := [SystemLines(s, staff)];
    }
  }

  /** The staves of system `s`, in order. */
  method DrawSystem(s: nat, sys: SystemLayout, scoreStaffShown: seq<bool>) returns (draws: seq<StaffLinesDraw>)
    requires |sys.staffShown| <= |scoreStaffShown|
    ensures draws == SystemDraws(s, sys, scoreStaffShown, |sys.staffShown|)
  {
    draws := [];
    var staff := 0;
    while staff < |sys.staffShown|
      invariant 0 <= staff <= |sys.staffShown|
      invariant draws == SystemDraws(s, sys, scoreStaffShown, staff)
    {
      var staffDraws := DrawStaff(s, sys, staff, scoreStaffShown);
      draws := draws + staffDraws;
      staff := staff + 1;
    }
  }

  /** The first pass over the page's systems and their staves. */
  method FirstPass(systems: seq<SystemLayout>, scoreStaffShown: seq<bool>) returns (draws: seq<StaffLinesDraw>)
    requires StavesKnown(systems, scoreStaffShown)
    ensures draws == PageDraws(systems, scoreStaffShown, |systems|)
  {
    draws := [];
    var s := 0;
    while s < |systems|
      invariant 0 <= s <= |systems|
      invariant draws == PageDraws(systems, scoreStaffShown, s)
    {
      assert |systems[s].staffShown| <= |scoreStaffShown|;
      var systemDraws := DrawSystem(s, systems[s], scoreStaffShown);
      draws := draws + systemDraws;
      s := s + 1;
    }
  }

  /** Which draws a system makes: for a painted staff, the whole-system lines when no entry
      of the chain forces per-measure drawing, and otherwise the lines of each measure visible
      on the staff. */
  predicate Expected(sys: SystemLayout, scoreStaffShown: seq<bool>, d: StaffLinesDraw)
    requires d.staff < |sys.staffShown| <= |scoreStaffShown|
  {
    StaffPainted(sys, d.staff, scoreStaffShown)
    && match d
       case SystemLines(_, staff) => !NeedsByMeasure(sys.chain, staff)
       case MeasureLines(_, staff, m) =>
         NeedsByMeasure(sys.chain, staff) && m < |sys.chain| && VisibleMeasure(sys.chain[m], staff)
  }

  lemma {:induction false} MeasureDrawsMembers(s: nat, staff: nat, chain: seq<MeasureBase>, n: nat, d: StaffLinesDraw)
    requires n <= |chain|
    ensures d in MeasureDraws(s, staff, chain, n) <==>
              d.MeasureLines? && d.system == s && d.staff == staff && d.measure < n
              && VisibleMeasure(chain[d.measure], staff)
  {
    if n > 0 {
      MeasureDrawsMembers(s, staff, chain, n - 1, d);
    }
  }

  lemma StaffDrawsMembers(s: nat, sys: SystemLayout, staff: nat, scoreStaffShown: seq<bool>, d: StaffLinesDraw)
    requires staff < |sys.staffShown| <= |scoreStaffShown|
    ensures d in StaffDraws(s, sys, staff, scoreStaffShown) <==>
              d.system == s && d.staff == staff && Expected(sys, scoreStaffShown, d)
  {
    if StaffPainted(sys, staff, scoreStaffShown) && NeedsByMeasure(sys.chain, staff) {
      MeasureDrawsMembers(s, staff, sys.chain, |sys.chain|, d);
    }
  }

  lemma {:induction false} SystemDrawsMembers(s: nat, sys: SystemLayout, scoreStaffShown: seq<bool>, n: nat, d: StaffLinesDraw)
    requires n <= |sys.staffShown| <= |scoreStaffShown|
    ensures d in SystemDraws(s, sys, scoreStaffShown, n) <==>
              d.system == s && d.staff < n && Expected(sys, scoreStaffShown, d)
  {
    if n > 0 {
      var before := SystemDraws(s, sys, scoreStaffShown, n - 1);
      var last := StaffDraws(s, sys, n - 1, scoreStaffShown);
      assert SystemDraws(s, sys, scoreStaffShown, n) == before + last;
      assert d in SystemDraws(s, sys, scoreStaffShown, n) <==> d in before || d in last;
      SystemDrawsMembers(s, sys, scoreStaffShown, n - 1, d);
      StaffDrawsMembers(s, sys, n - 1, scoreStaffShown, d);
    }
  }

  /** Which draws the first `n` systems of a page make. */
  predicate ExpectedOnPage(systems: seq<SystemLayout>, scoreStaffShown: seq<bool>, n: nat, d: StaffLinesDraw)
    requires n <= |systems|
  {
    d.system < n && d.staff < |systems[d.system].staffShown| <= |scoreStaffShown|
    && Expected(systems[d.system], scoreStaffShown, d)
  }

  /** The draws of the page are exactly the expected draws of its systems. */
  lemma {:induction false} PageDrawsMembers(systems: seq<SystemLayout>, scoreStaffShown: seq<bool>, n: nat, d: StaffLinesDraw)
    requires n <= |systems| && StavesKnown(systems, scoreStaffShown)
    ensures d in PageDraws(systems, scoreStaffShown, n) <==> ExpectedOnPage(systems, scoreStaffShown, n, d)
  {
    if n > 0 {
      var last := systems[n - 1];
      assert |last.staffShown| <= |scoreStaffShown|;
      var lastDraws := SystemDraws(n - 1, last, scoreStaffShown, |last.staffShown|);
      var before := PageDraws(systems, scoreStaffShown, n - 1);
      assert PageDraws(systems, scoreStaffShown, n) == before + lastDraws;
      assert d in PageDraws(systems, scoreStaffShown, n) <==> d in before || d in lastDraws;
      PageDrawsMembers(systems, scoreStaffShown, n - 1, d);
      SystemDrawsMembers(n - 1, last, scoreStaffShown, |last.staffShown|, d);
      if d.system == n - 1 {
        assert systems[d.system] == last;
        assert d !in before;
      } else {
        assert d !in lastDraws;
      }
    }
  }

  /** A system's staff lines are painted in one piece exactly when the staff is painted at
      all and every entry of the chain is a measure visible on that staff. */
  lemma SystemLinesDrawn(systems: seq<SystemLayout>, scoreStaffShown: seq<bool>, s: nat, staff: nat)
    requires StavesKnown(systems, scoreStaffShown)
    requires s < |systems| && staff < |systems[s].staffShown|
    ensures SystemLines(s, staff) in PageDraws(systems, scoreStaffShown, |systems|) <==>
              StaffPainted(systems[s], staff, scoreStaffShown) && !NeedsByMeasure(systems[s].chain, staff)
  {
    PageDrawsMembers(systems, scoreStaffShown, |systems|, SystemLines(s, staff));
  }

  /** A measure's own staff lines are painted exactly when the staff is painted, some entry of
      the chain forces per-measure drawing, and that measure is visible on the staff. */
  lemma MeasureLinesDrawn(systems: seq<SystemLayout>, scoreStaffShown: seq<bool>, s: nat, staff: nat, m: nat)
    requires StavesKnown(systems, scoreStaffShown)
    requires s < |systems| && staff < |systems[s].staffShown| && m < |systems[s].chain|
    ensures MeasureLines(s, staff, m) in PageDraws(systems, scoreStaffShown, |systems|) <==>
              StaffPainted(systems[s], staff, scoreStaffShown) && NeedsByMeasure(systems[s].chain, staff)
              && VisibleMeasure(systems[s].chain[m], staff)
  {
    PageDrawsMembers(systems, scoreStaffShown, |systems|, MeasureLines(s, staff, m));
  }
}
