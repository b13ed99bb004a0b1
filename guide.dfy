/**
 * The guide's navigation state (App.tsx): the active section id, the set of completed section ids,
 * the view mode and the sidebar flag, with the handlers that update them and the derived values
 * (active section, active index, next section, progress percentage).
 * The model is parameterised over the ordered, distinct section ids of the guide content.
 */
module Guide {

  import opened Wrappers

  /** The section ids of the guide content, in display order. */
  const GuideSectionIds: seq<string> :=
    ["intro", "prereqs", "prepare-code", "method-netlify", "method-vercel", "troubleshooting", "success"]

  predicate Distinct(ids: seq<string>) {
    forall i, j :: 0 <= i < j < |ids| ==> ids[i] != ids[j]
  }

  /** A usable table of contents: at least one section, no id twice. */
  predicate ValidSections(ids: seq<string>) {
    |ids| > 0 && Distinct(ids)
  }

  lemma GuideSectionIdsValid()
    ensures ValidSections(GuideSectionIds)
  {
  }

  /** `guideData.findIndex(s => s.id === id)`: the first position of `id`, or -1. */
  function FindIndex(ids: seq<string>, id: string): (r: int)
    ensures -1 <= r < |ids|
    ensures r >= 0 ==> ids[r] == id && forall j :: 0 <= j < r ==> ids[j] != id
    ensures r == -1 <==> id !in ids
  {
    if ids == [] then -1
    else if ids[0] == id then 0
    else
      var k := FindIndex(ids[1..], id);
      if k == -1 then -1 else k + 1
  }

  /** `guideData.find(s => s.id === id) || guideData[0]`: the section displayed for an active id. */
  function ActiveSection(ids: seq<string>, id: string): (r: string)
    requires |ids| > 0
    ensures r in ids
    ensures id in ids ==> r == id
    ensures id !in ids ==> r == ids[0]
  {
    var k := FindIndex(ids, id);
    if k >= 0 then ids[k] else ids[0]
  }

  /** `guideData[activeIndex + 1]`, `undefined` past the end. */
  function NextSection(ids: seq<string>, id: string): (r: Option<string>)
    requires Distinct(ids)
    ensures id in ids && FindIndex(ids, id) < |ids| - 1 ==> r == Some(ids[FindIndex(ids, id) + 1])
    ensures id in ids && FindIndex(ids, id) == |ids| - 1 ==> r.None?
    ensures id !in ids && |ids| > 0 ==> r == Some(ids[0])
  {
    var k := FindIndex(ids, id);
    if k + 1 < |ids| then Some(ids[k + 1]) else None
  }

  /**
   * `Math.round(completed / total * 100)` in exact arithmetic: the integer nearest to
   * `100 * completed / total`, ties rounded up.
   */
  function Progress(completed: nat, total: nat): (r: int)
    requires total > 0
    ensures 2 * total * r <= 200 * completed + total < 2 * total * r + 2 * total
  {
    (200 * completed + total) / (2 * total)
  }

  datatype ViewMode = GuideView | PlaygroundView

  datatype GuideState = GuideState(activeSectionId: string, completed: set<string>, viewMode: ViewMode, sidebarOpen: bool)

  /** The states the application can reach: the active id is a section and only sections are completed. */
  predicate ValidState(ids: seq<string>, st: GuideState) {
    ValidSections(ids) && st.activeSectionId in ids && st.completed <= set i | i in ids
  }

  /** The initial state (App.tsx:19-22). */
  function Init(ids: seq<string>): (r: GuideState)
    requires |ids| > 0
    ensures r.activeSectionId == ids[0] && r.completed == {} && r.viewMode == GuideView && !r.sidebarOpen
    ensures ValidSections(ids) ==> ValidState(ids, r)
  {
    GuideState(ids[0], {}, GuideView, false)
  }

  /** `handleComplete(id)`: add `id` to the completed set, then move to the next section if there is one. */
  function Complete(ids: seq<string>, st: GuideState, id: string): (r: GuideState)
    requires Distinct(ids)
    ensures r.completed == st.completed + {id}
    ensures r.viewMode == st.viewMode && r.sidebarOpen == st.sidebarOpen
    ensures var k := FindIndex(ids, st.activeSectionId);
      && (0 <= k < |ids| - 1 ==> r.activeSectionId == ids[k + 1])
      && (k == |ids| - 1 ==> r.activeSectionId == st.activeSectionId)
      && (k == -1 && |ids| > 0 ==> r.activeSectionId == ids[0])
  {
    var next := NextSection(ids, st.activeSectionId);
    st.(completed := st.completed + {id}, activeSectionId := if next.Some? then next.value else st.activeSectionId)
  }

  /** The footer button: `handleComplete(activeSection.id)`. */
  function CompleteActive(ids: seq<string>, st: GuideState): (r: GuideState)
    requires ValidSections(ids)
    ensures ActiveSection(ids, st.activeSectionId) in r.completed
    ensures r.completed == st.completed + {ActiveSection(ids, st.activeSectionId)}
    ensures r.activeSectionId in ids || r.activeSectionId == st.activeSectionId
  {
    Complete(ids, st, ActiveSection(ids, st.activeSectionId))
  }

  /** The Previous button: move to `activeIndex - 1` when that is a position. */
  function Previous(ids: seq<string>, st: GuideState): (r: GuideState)
    ensures var k := FindIndex(ids, st.activeSectionId);
      && (k > 0 ==> r == st.(activeSectionId := ids[k - 1]))
      && (k <= 0 ==> r == st)
  {
    var prev := FindIndex(ids, st.activeSectionId) - 1;
    if prev >= 0 then st.(activeSectionId := ids[prev]) else st
  }

  /** A sidebar entry: make the section active and close the sidebar. */
  function Select(st: GuideState, id: string): (r: GuideState)
    ensures r.activeSectionId == id && !r.sidebarOpen
    ensures r.completed == st.completed && r.viewMode == st.viewMode
  {
    st.(activeSectionId := id, sidebarOpen := false)
  }

  /** The Guide and Playground buttons of the sidebar. */
  function ShowView(st: GuideState, mode: ViewMode): (r: GuideState)
    ensures r.viewMode == mode && !r.sidebarOpen
    ensures r.activeSectionId == st.activeSectionId && r.completed == st.completed
  {
    st.(viewMode := mode, sidebarOpen := false)
  }

  /** The mobile menu button. */
  function ToggleSidebar(st: GuideState): (r: GuideState)
    ensures r.sidebarOpen != st.sidebarOpen
    ensures r.(sidebarOpen := st.sidebarOpen) == st
  {
    st.(sidebarOpen := !st.sidebarOpen)
  }

  /** The progress shown in the sidebar. */
  function ProgressOf(ids: seq<string>, st: GuideState): (r: int)
    requires |ids| > 0
    ensures 2 * |ids| * r <= 200 * |st.completed| + |ids| < 2 * |ids| * r + 2 * |ids|
    ensures st.completed == {} ==> r == 0
  {
    Progress(|st.completed|, |ids|)
  }

  // ---------------------------------------------------------------- properties

  /** The initial state is valid: first section active, nothing completed, guide view. */
  lemma InitValid(ids: seq<string>)
    requires ValidSections(ids)
    ensures ValidState(ids, Init(ids))
    ensures Init(ids).activeSectionId == ids[0] && Init(ids).completed == {} && Init(ids).viewMode == GuideView
    ensures ProgressOf(ids, Init(ids)) == 0
  {
  }

  /** Every handler keeps the state valid. */
  lemma TransitionsPreserveValid(ids: seq<string>, st: GuideState, id: string, mode: ViewMode)
    requires ValidState(ids, st)
    requires id in ids
    ensures ValidState(ids, CompleteActive(ids, st))
    ensures ValidState(ids, Complete(ids, st, id))
    ensures ValidState(ids, Previous(ids, st))
    ensures ValidState(ids, Select(st, id))
    ensures ValidState(ids, ShowView(st, mode)) && ValidState(ids, ToggleSidebar(st))
  {
  }

  /** Completing adds exactly the given id and removes nothing; completing it again adds nothing more. */
  lemma CompleteAddsOnly(ids: seq<string>, st: GuideState, id: string)
    requires Distinct(ids)
    ensures Complete(ids, st, id).completed == st.completed + {id}
    ensures Complete(ids, Complete(ids, st, id), id).completed == Complete(ids, st, id).completed
    ensures st.completed <= Complete(ids, st, id).completed
  {
  }

  /** Completing a section that is not the last moves to the next index; completing the last one stays. */
  lemma CompleteAdvances(ids: seq<string>, st: GuideState)
    requires ValidState(ids, st)
    ensures var k := FindIndex(ids, st.activeSectionId);
      && (k < |ids| - 1 ==> CompleteActive(ids, st).activeSectionId == ids[k + 1])
      && (k == |ids| - 1 ==> CompleteActive(ids, st).activeSectionId == st.activeSectionId)
    ensures st.activeSectionId in CompleteActive(ids, st).completed
  {
    var a := st.activeSectionId;
    var k := FindIndex(ids, a);
    assert ActiveSection(ids, a) == a;
    assert CompleteActive(ids, st) == Complete(ids, st, a);
    var next := NextSection(ids, a);
    assert k < |ids| - 1 ==> next == Some(ids[k + 1]);
    assert k == |ids| - 1 ==> next == None;
  }

  /** Previous moves one position back and does nothing at the first section. */
  lemma PreviousSteps(ids: seq<string>, st: GuideState)
    requires ValidState(ids, st)
    ensures var k := FindIndex(ids, st.activeSectionId);
      && (k > 0 ==> Previous(ids, st) == st.(activeSectionId := ids[k - 1]))
      && (k == 0 ==> Previous(ids, st) == st)
  {
  }

  /** Selecting makes the section active and leaves the completed set alone. */
  lemma SelectKeepsCompleted(ids: seq<string>, st: GuideState, id: string)
    requires ValidState(ids, st) && id in ids
    ensures Select(st, id).activeSectionId == id
    ensures FindIndex(ids, Select(st, id).activeSectionId) >= 0
    ensures Select(st, id).completed == st.completed
  {
  }

  /** An unknown active id displays the first section, and completing it marks and moves to that first section. */
  lemma UnknownActiveFallsBack(ids: seq<string>, st: GuideState)
    requires ValidSections(ids) && st.activeSectionId !in ids
    ensures ActiveSection(ids, st.activeSectionId) == ids[0]
    ensures FindIndex(ids, st.activeSectionId) == -1
    ensures CompleteActive(ids, st).activeSectionId == ids[0]
    ensures CompleteActive(ids, st).completed == st.completed + {ids[0]}
  {
  }

  /** The percentage lies in 0..100 whenever no more sections are completed than exist. */
  lemma ProgressBounds(completed: nat, total: nat)
    requires 0 < total && completed <= total
    ensures 0 <= Progress(completed, total) <= 100
    ensures completed == 0 ==> Progress(completed, total) == 0
    ensures completed == total ==> Progress(completed, total) == 100
  {
    var r := Progress(completed, total);
    var a := 2 * total;
    assert a * r < a * 101;
    MulCancelLt(a, r, 101);
    assert a * (-1) < a * r;
    MulCancelLt(a, -1, r);
    if completed == 0 {
      assert a * r < a * 1;
      MulCancelLt(a, r, 1);
    }
    if completed == total {
      assert a * 99 < a * r;
      MulCancelLt(a, 99, r);
    }
  }

  /** A guide of fewer than 200 sections shows 100% only when every section is completed. */
  lemma ProgressFullOnlyWhenAllComplete(completed: nat, total: nat)
    requires 0 < total < 200 && completed <= total
    ensures Progress(completed, total) == 100 <==> completed == total
  {
    ProgressBounds(completed, total);
  }

  lemma MulLe(a: nat, x: int, y: int)
    requires x <= y
    ensures a * x <= a * y
  {
  }

  lemma MulCancelLt(a: int, x: int, y: int)
    requires a > 0 && a * x < a * y
    ensures x < y
  {
    if x >= y {
      MulLe(a, y, x);
    }
  }

  /** The number of distinct ids is the number of sections. */
  lemma {:induction false} DistinctCard(ids: seq<string>)
    requires Distinct(ids)
    ensures |set i | i in ids| == |ids|
  {
    if ids != [] {
      var rest := ids[1..];
      DistinctCard(rest);
      assert (set i | i in ids) == (set i | i in rest) + {ids[0]};
      assert ids[0] !in rest;
    }
  }

  /** In a valid state of a guide under 200 sections, the progress is 100% exactly when every section is completed. */
  lemma ProgressFullIffAllCompleted(ids: seq<string>, st: GuideState)
    requires ValidState(ids, st) && |ids| < 200
    ensures 0 <= ProgressOf(ids, st) <= 100
    ensures ProgressOf(ids, st) == 100 <==> st.completed == set i | i in ids
  {
    var all := set i | i in ids;
    DistinctCard(ids);
    assert |st.completed| <= |all| by { SubsetCard(st.completed, all); }
    ProgressBounds(|st.completed|, |ids|);
    ProgressFullOnlyWhenAllComplete(|st.completed|, |ids|);
    if |st.completed| == |ids| && st.completed != all {
      SubsetCardStrict(st.completed, all);
    }
  }

  lemma SubsetCard<T>(a: set<T>, b: set<T>)
    requires a <= b
    ensures |a| <= |b|
  {
    assert b == a + (b - a);
  }

  lemma SubsetCardStrict<T>(a: set<T>, b: set<T>)
    requires a < b
    ensures |a| < |b|
  {
    assert b - a != {};
    var x :| x in b - a;
    SubsetCard(a + {x}, b);
  }

  /** The state after pressing the footer button `k` times from `st`. */
  function CompleteTimes(ids: seq<string>, st: GuideState, k: nat): GuideState
    requires ValidSections(ids)
  {
    if k == 0 then st else CompleteActive(ids, CompleteTimes(ids, st, k - 1))
  }

  /**
   * From the initial state, pressing the footer button `k` times (`k` before the last section) leaves
   * section `k` active and exactly the first `k` sections completed.
   */
  lemma {:induction false} WalkThrough(ids: seq<string>, k: nat)
    requires ValidSections(ids) && k < |ids|
    ensures CompleteTimes(ids, Init(ids), k).activeSectionId == ids[k]
    ensures CompleteTimes(ids, Init(ids), k).completed == set i | i in ids[..k]
  {
    if k > 0 {
      WalkThrough(ids, k - 1);
      WalkStep(ids, CompleteTimes(ids, Init(ids), k - 1), k);
    }
  }

  /** One press of the footer button on section `k - 1` with the sections before it completed. */
  lemma WalkStep(ids: seq<string>, prev: GuideState, k: nat)
    requires ValidSections(ids) && 0 < k < |ids|
    requires prev.activeSectionId == ids[k - 1]
    requires prev.completed == IdSet(ids[..k - 1])
    ensures CompleteActive(ids, prev).activeSectionId == ids[k]
    ensures CompleteActive(ids, prev).completed == IdSet(ids[..k])
  {
    FindIndexAt(ids, k - 1);
    assert ids[..k] == ids[..k - 1] + [ids[k - 1]];
    IdSetAppend(ids[..k - 1], ids[k - 1]);
    assert ActiveSection(ids, prev.activeSectionId) == ids[k - 1];
    assert NextSection(ids, ids[k - 1]) == Some(ids[k]);
  }

  /** The ids of a sequence, as a set. */
  function IdSet(s: seq<string>): (r: set<string>)
    ensures forall x :: x in r <==> x in s
  {
    set i | i in s
  }

  lemma IdSetAppend(s: seq<string>, x: string)
    ensures (set i | i in s + [x]) == (set i | i in s) + {x}
  {
  }

  /** In distinct ids the position of `ids[k]` is `k`. */
  lemma FindIndexAt(ids: seq<string>, k: nat)
    requires Distinct(ids) && k < |ids|
    ensures FindIndex(ids, ids[k]) == k
  {

  }

  /**
   * The application's state cells. The methods are the handlers of App.tsx; each is proved to
   * perform the corresponding transition function above.
   */
  class GuideApp {
    const sections: seq<string>
    var activeSectionId: string
    var completedSections: set<string>
    var viewMode: ViewMode
    var isSidebarOpen: bool

    function State(): GuideState
      reads this
    {
      GuideState(activeSectionId, completedSections, viewMode, isSidebarOpen)
    }

    ghost predicate Valid()
      reads this
    {
      ValidState(sections, State())
    }

    constructor (ids: seq<string>)
      requires ValidSections(ids)
      ensures sections == ids && Valid()
      ensures State() == Init(ids)
    {
      sections := ids;
      activeSectionId := ids[0];
      completedSections := {};
      isSidebarOpen := false;
      viewMode := GuideView;
    }

    /** The progress percentage shown in the sidebar. */
    method ProgressPercentage() returns (p: int)
      requires Valid()
      ensures p == ProgressOf(sections, State())
      ensures 0 <= p <= 100
    {
      DistinctCard(sections);
      SubsetCard(completedSections, set i | i in sections);
      ProgressBounds(|completedSections|, |sections|);
      p := Progress(|completedSections|, |sections|);
    }

    /** `handleComplete(id)`: copy the set, add `id`, store it, then move to the next section if any. */
    method HandleComplete(id: string)
      requires Valid() && id in sections
      modifies this
      ensures Valid()
      ensures State() == Complete(sections, old(State()), id)
    {
      var nextSection := NextSection(sections, activeSectionId);
      var newCompleted := completedSections;
      newCompleted := newCompleted + {id};
      completedSections := newCompleted;
      if nextSection.Some? {
        activeSectionId := nextSection.value;
      }
    }

    /** The footer button "Mark Complete & Next" / "Finish Guide". */
    method ClickComplete()
      requires Valid()
      modifies this
      ensures Valid()
      ensures State() == CompleteActive(sections, old(State()))
    {
      HandleComplete(ActiveSection(sections, activeSectionId));
    }

    /** The footer button "Previous". */
    method ClickPrevious()
      requires Valid()
      modifies this
      ensures Valid()
      ensures State() == Previous(sections, old(State()))
    {
      var prevIdx := FindIndex(sections, activeSectionId) - 1;
      if prevIdx >= 0 {
        activeSectionId := sections[prevIdx];
      }
    }

    /** A section entry of the sidebar. */
    method ClickSection(id: string)
      requires Valid() && id in sections
      modifies this
      ensures Valid()
      ensures State() == Select(old(State()), id)
    {
      activeSectionId := id;
      isSidebarOpen := false;
    }

    /** The Guide / AI Playground buttons of the sidebar. */
    method ClickView(mode: ViewMode)
      requires Valid()
      modifies this
      ensures Valid()
      ensures State() == ShowView(old(State()), mode)
    {
      viewMode := mode;
      isSidebarOpen := false;
    }

    /** The mobile menu button. */
    method ClickMenu()
      requires Valid()
      modifies this
      ensures Valid()
      ensures State() == ToggleSidebar(old(State()))
    {
      isSidebarOpen := !isSidebarOpen;
    }
  }
}
