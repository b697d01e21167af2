/**
 * The step-list operations of the pipeline editor
 * (frontend/src/components/pipeline/PipelineBuilder.tsx). Every operation
 * builds a new list and hands it to the parent; none updates a list in
 * place.
 */
module Builder {
  import opened Wrappers
  import opened Strings

  datatype StepType = Summarize | Translate | Rewrite | Extract

  /** The editor's `StepConfig`: every field may be absent. */
  datatype Config = Config(
    length: Option<string>,
    format: Option<string>,
    targetLanguage: Option<string>,
    tone: Option<string>,
    style: Option<string>,
    extractType: Option<string>)

  const EmptyConfig := Config(None, None, None, None, None, None)

  /** The editor's `PipelineStep`; `order` is its position as last numbered. */
  datatype BuilderStep = BuilderStep(id: string, kind: StepType, config: Config, order: int)

  /** `getDefaultConfig`: the config a newly added step of each type starts with. */
  function DefaultConfig(kind: StepType): Config {
    match kind
    case Summarize => EmptyConfig.(length := Some("medium"), format := Some("paragraph"))
    case Translate => EmptyConfig.(targetLanguage := Some("English"))
    case Rewrite => EmptyConfig.(tone := Some("professional"), style := Some("informative"))
    case Extract => EmptyConfig.(extractType := Some("keywords"))
  }

  /** Every step's `order` is its position. */
  predicate Numbered(steps: seq<BuilderStep>) {
    forall i :: 0 <= i < |steps| ==> steps[i].order == i
  }

  /** `.map((step, index) => ({ ...step, order: index }))`. */
  function Renumber(steps: seq<BuilderStep>): seq<BuilderStep> {
    seq(|steps|, i requires 0 <= i < |steps| => steps[i].(order := i))
  }

  /** The steps with their numbering forgotten, to compare lists up to renumbering. */
  function Unnumbered(steps: seq<BuilderStep>): seq<BuilderStep> {
    seq(|steps|, i requires 0 <= i < |steps| => steps[i].(order := 0))
  }

  /** Renumbering numbers the list and changes nothing else. */
  lemma RenumberNumbers(steps: seq<BuilderStep>)
    ensures |Renumber(steps)| == |steps| && Numbered(Renumber(steps))
    ensures Unnumbered(Renumber(steps)) == Unnumbered(steps)
    ensures Numbered(steps) ==> Renumber(steps) == steps
  {
  }

  /** `addStep`; `now` is `Date.now()`, from which the id is made. */
  function AddStep(steps: seq<BuilderStep>, kind: StepType, now: nat): seq<BuilderStep> {
    steps + [BuilderStep("step-" + NatToString(now), kind, DefaultConfig(kind), |steps|)]
  }

  /**
   * Adding keeps the existing steps and appends one step of the chosen type,
   * with its type's default config and an id of the form "step-" followed by
   * digits; it keeps a numbered list numbered.
   */
  lemma AddStepAppends(steps: seq<BuilderStep>, kind: StepType, now: nat)
    ensures var r := AddStep(steps, kind, now);
            && |r| == |steps| + 1 && r[..|steps|] == steps
            && r[|steps|].kind == kind && r[|steps|].config == DefaultConfig(kind)
            && r[|steps|].order == |steps|
            && StartsWith(r[|steps|].id, "step-") && |r[|steps|].id| > 5
            && (forall i :: 5 <= i < |r[|steps|].id| ==> '0' <= r[|steps|].id[i] <= '9')
            && (Numbered(steps) ==> Numbered(r))
  {
    var id := "step-" + NatToString(now);
    assert forall i :: 5 <= i < |id| ==> id[i] == NatToString(now)[i - 5];
  }

  /** `.filter((step) => step.id !== stepId)`. */
  function Filter(steps: seq<BuilderStep>, id: string): seq<BuilderStep>
    decreases |steps|
  {
    if steps == [] then []
    else (if steps[0].id != id then [steps[0]] else []) + Filter(steps[1..], id)
  }

  /** The positions of the steps whose id differs from `id`, in increasing order. */
  function Kept(steps: seq<BuilderStep>, id: string, from: nat): seq<nat>
    decreases |steps|
  {
    if steps == [] then []
    else (if steps[0].id != id then [from] else []) + Kept(steps[1..], id, from + 1)
  }

  predicate Increasing(xs: seq<nat>) {
    forall a, b :: 0 <= a < b < |xs| ==> xs[a] < xs[b]
  }

  /** The kept positions are increasing positions of the list, one per kept step. */
  lemma {:induction false} KeptBounds(steps: seq<BuilderStep>, id: string, from: nat)
    ensures var k := Kept(steps, id, from);
            && |Filter(steps, id)| == |k| && Increasing(k)
            && forall j :: 0 <= j < |k| ==> from <= k[j] < from + |steps|
    decreases |steps|
  {
    if steps != [] {
      KeptBounds(steps[1..], id, from + 1);
    }
  }

  /** A position is kept exactly when its step's id differs from `id`. */
  lemma {:induction false} KeptExactly(steps: seq<BuilderStep>, id: string, from: nat)
    ensures forall i :: 0 <= i < |steps| ==> (steps[i].id != id <==> from + i in Kept(steps, id, from))
    decreases |steps|
  {
    if steps != [] {
      var k, k' := Kept(steps, id, from), Kept(steps[1..], id, from + 1);
      KeptExactly(steps[1..], id, from + 1);
      KeptBounds(steps[1..], id, from + 1);
      assert from !in k';
      assert k == if steps[0].id != id then [from] + k' else k';
      forall i | 0 < i < |steps|
        ensures steps[i].id != id <==> from + i in k
      {
        assert steps[i] == steps[1..][i - 1];
        assert from + i in k <==> from + i in k';
      }
    }
  }

  /** One kept position per step the filter keeps. */
  lemma {:induction false} FilterLength(steps: seq<BuilderStep>, id: string, from: nat)
    ensures |Filter(steps, id)| == |Kept(steps, id, from)|
    decreases |steps|
  {
    if steps != [] {
      FilterLength(steps[1..], id, from + 1);
    }
  }

  /** One step of `Filter` and `Kept` together. */
  lemma FilterUnfold(steps: seq<BuilderStep>, id: string, from: nat)
    requires steps != []
    ensures steps[0].id != id ==> Filter(steps, id) == [steps[0]] + Filter(steps[1..], id)
                                  && Kept(steps, id, from) == [from] + Kept(steps[1..], id, from + 1)
    ensures steps[0].id == id ==> Filter(steps, id) == Filter(steps[1..], id)
                                  && Kept(steps, id, from) == Kept(steps[1..], id, from + 1)
  {
  }

  /** The `j`-th step the filter keeps is the step at the `j`-th kept position. */
  lemma {:induction false} FilterAt(steps: seq<BuilderStep>, id: string, from: nat, j: nat)
    requires j < |Kept(steps, id, from)|
    ensures var f, k := Filter(steps, id), Kept(steps, id, from);
            && j < |f| && from <= k[j] < from + |steps| && f[j] == steps[k[j] - from]
    decreases |steps|, 1
  {
    FilterLength(steps, id, from);
    if steps[0].id != id {
      FilterAtKept(steps, id, from, j);
    } else {
      FilterAtDropped(steps, id, from, j);
    }
  }

  /** `FilterAt` when the first step is kept. */
  lemma {:induction false} FilterAtKept(steps: seq<BuilderStep>, id: string, from: nat, j: nat)
    requires steps != [] && steps[0].id != id && j < |Kept(steps, id, from)|
    ensures var f, k := Filter(steps, id), Kept(steps, id, from);
            && j < |f| && from <= k[j] < from + |steps| && f[j] == steps[k[j] - from]
    decreases |steps|, 0
  {
    FilterUnfold(steps, id, from);
    FilterLength(steps, id, from);
    var rest := steps[1..];
    if j > 0 {
      FilterAt(rest, id, from + 1, j - 1);
      var k' := Kept(rest, id, from + 1);
      assert Kept(steps, id, from)[j] == k'[j - 1];
      assert Filter(steps, id)[j] == Filter(rest, id)[j - 1];
      assert steps[k'[j - 1] - from] == rest[k'[j - 1] - (from + 1)];
    }
  }

  /** `FilterAt` when the first step is dropped. */
  lemma {:induction false} FilterAtDropped(steps: seq<BuilderStep>, id: string, from: nat, j: nat)
    requires steps != [] && steps[0].id == id && j < |Kept(steps, id, from)|
    ensures var f, k := Filter(steps, id), Kept(steps, id, from);
            && j < |f| && from <= k[j] < from + |steps| && f[j] == steps[k[j] - from]
    decreases |steps|, 0
  {
    FilterUnfold(steps, id, from);
    var rest := steps[1..];
    FilterAt(rest, id, from + 1, j);
    var k' := Kept(rest, id, from + 1);
    assert steps[k'[j] - from] == rest[k'[j] - (from + 1)];
  }

  /** The filter keeps, in their original order, the steps at the kept positions. */
  lemma FilterKeepsOrder(steps: seq<BuilderStep>, id: string, from: nat)
    ensures var f, k := Filter(steps, id), Kept(steps, id, from);
            && |f| == |k|
            && forall j :: 0 <= j < |k| ==> from <= k[j] < from + |steps| && f[j] == steps[k[j] - from]
  {
    KeptBounds(steps, id, from);
    forall j | 0 <= j < |Kept(steps, id, from)|
      ensures from <= Kept(steps, id, from)[j] < from + |steps|
              && Filter(steps, id)[j] == steps[Kept(steps, id, from)[j] - from]
    {
      FilterAt(steps, id, from, j);
    }
  }

  /** `removeStep`. */
  function RemoveStep(steps: seq<BuilderStep>, id: string): seq<BuilderStep> {
    Renumber(Filter(steps, id))
  }

  /**
   * Removing drops every step with the id and keeps the others in their
   * relative order, renumbered from 0; `Kept` gives the original position of
   * each step that remains.
   */
  lemma RemoveStepDropsId(steps: seq<BuilderStep>, id: string)
    ensures var r, k := RemoveStep(steps, id), Kept(steps, id, 0);
            && |r| == |k| && Increasing(k) && Numbered(r)
            && (forall j :: 0 <= j < |r| ==> r[j].id != id && k[j] < |steps| && r[j] == steps[k[j]].(order := j))
            && (forall i :: 0 <= i < |steps| ==> (steps[i].id != id <==> i in k))
  {
    KeptBounds(steps, id, 0);
    KeptExactly(steps, id, 0);
    FilterKeepsOrder(steps, id, 0);
  }

  /** Removing an id no step has only renumbers; on a numbered list it changes nothing. */
  lemma {:induction false} RemoveAbsentId(steps: seq<BuilderStep>, id: string)
    requires forall i :: 0 <= i < |steps| ==> steps[i].id != id
    ensures RemoveStep(steps, id) == Renumber(steps)
    ensures Numbered(steps) ==> RemoveStep(steps, id) == steps
  {
    FilterAbsentId(steps, id);
  }

  lemma {:induction false} FilterAbsentId(steps: seq<BuilderStep>, id: string)
    requires forall i :: 0 <= i < |steps| ==> steps[i].id != id
    ensures Filter(steps, id) == steps
    decreases |steps|
  {
    if steps != [] {
      FilterAbsentId(steps[1..], id);
      assert steps == [steps[0]] + steps[1..];
    }
  }

  /**
   * `arrayMove` of dnd-kit: the insert position is resolved (a negative one
   * counting from the end of the original list) before the element at
   * `from` is taken out, and is then clamped to the shortened list.
   */
  function MoveTarget(n: nat, to: int): (q: nat)
    requires n > 0 && 0 <= n + to
    ensures q < n
    ensures 0 <= to < n ==> q == to
    ensures to == -1 ==> q == n - 1
  {
    var p := if to < 0 then n + to else to;
    if p < n - 1 then p else n - 1
  }

  function ArrayMove<T>(s: seq<T>, from: int, to: int): seq<T>
    requires 0 <= from < |s| && 0 <= |s| + to
  {
    var rest := s[..from] + s[from + 1..];
    var q := MoveTarget(|s|, to);
    rest[..q] + [s[from]] + rest[q..]
  }

  /**
   * A move is a permutation: the moved element lands at the resolved target
   * position and the others keep their relative order.
   */
  lemma ArrayMovePermutes<T>(s: seq<T>, from: int, to: int)
    requires 0 <= from < |s| && 0 <= |s| + to
    ensures var r, q := ArrayMove(s, from, to), MoveTarget(|s|, to);
            && |r| == |s| && multiset(r) == multiset(s)
            && r[q] == s[from]
            && r[..q] + r[q + 1..] == s[..from] + s[from + 1..]
  {
    var rest := s[..from] + s[from + 1..];
    var q := MoveTarget(|s|, to);
    var r := ArrayMove(s, from, to);
    assert r[..q] == rest[..q] && r[q + 1..] == rest[q..];
    MoveKeepsMultiset(s, from, q);
  }

  lemma MoveKeepsMultiset<T>(s: seq<T>, from: nat, q: nat)
    requires from < |s| && q < |s|
    ensures var rest := s[..from] + s[from + 1..];
            multiset(rest[..q] + [s[from]] + rest[q..]) == multiset(s)
  {
    var rest := s[..from] + s[from + 1..];
    assert s == s[..from] + [s[from]] + s[from + 1..];
    assert rest == rest[..q] + rest[q..];
    calc {
      multiset(rest[..q] + [s[from]] + rest[q..]);
      multiset(rest[..q]) + multiset{s[from]} + multiset(rest[q..]);
      multiset(rest) + multiset{s[from]};
      multiset(s[..from]) + multiset(s[from + 1..]) + multiset{s[from]};
      multiset(s);
    }
  }

  /** `findIndex` by id: the first position holding the id, or -1. */
  function IndexOf(steps: seq<BuilderStep>, id: string): (r: int)
    ensures -1 <= r < |steps|
    ensures r >= 0 ==> steps[r].id == id && forall j :: 0 <= j < r ==> steps[j].id != id
    ensures r == -1 <==> forall j :: 0 <= j < |steps| ==> steps[j].id != id
    decreases |steps|
  {
    if steps == [] then -1
    else if steps[0].id == id then 0
    else
      var r := IndexOf(steps[1..], id);
      if r == -1 then -1 else r + 1
  }

  /**
   * `handleDragEnd`: `None` when the step is dropped on itself (the list is
   * not handed on), otherwise the moved and renumbered list. `over` is
   * `None` when the drop lands outside every step. The dragged step is
   * always one of the steps.
   */
  function HandleDragEnd(steps: seq<BuilderStep>, activeId: string, overId: Option<string>): Option<seq<BuilderStep>>
    requires exists i :: 0 <= i < |steps| && steps[i].id == activeId
  {
    if overId == Some(activeId) then None
    else
      var from := IndexOf(steps, activeId);
      var to := if overId.Some? then IndexOf(steps, overId.value) else -1;
      Some(Renumber(ArrayMove(steps, from, to)))
  }

  /**
   * Dropping a step on itself hands nothing on; any other drag yields a
   * renumbered permutation of the steps.
   */
  lemma DragEndPermutes(steps: seq<BuilderStep>, activeId: string, overId: Option<string>)
    requires exists i :: 0 <= i < |steps| && steps[i].id == activeId
    ensures overId == Some(activeId) <==> HandleDragEnd(steps, activeId, overId).None?
    ensures var r := HandleDragEnd(steps, activeId, overId);
            r.Some? ==>
              && |r.value| == |steps| && Numbered(r.value)
              && multiset(Unnumbered(r.value)) == multiset(Unnumbered(steps))
  {
    if overId != Some(activeId) {
      var from := IndexOf(steps, activeId);
      var to := if overId.Some? then IndexOf(steps, overId.value) else -1;
      var moved := ArrayMove(steps, from, to);
      RenumberNumbers(moved);
      UnnumberedMoves(steps, from, to);
      ArrayMovePermutes(Unnumbered(steps), from, to);
    }
  }

  /**
   * The dragged step lands at the over step's position, or at the end when
   * the drop landed outside every step.
   */
  lemma DragEndPlacesActive(steps: seq<BuilderStep>, activeId: string, overId: Option<string>)
    requires exists i :: 0 <= i < |steps| && steps[i].id == activeId
    requires overId != Some(activeId)
    ensures var r := HandleDragEnd(steps, activeId, overId).value;
            var target := if overId.Some? && IndexOf(steps, overId.value) >= 0
                          then IndexOf(steps, overId.value) else |steps| - 1;
            r[target].id == activeId && r[target] == steps[IndexOf(steps, activeId)].(order := target)
  {
    var from := IndexOf(steps, activeId);
    var to := if overId.Some? then IndexOf(steps, overId.value) else -1;
    ArrayMovePermutes(steps, from, to);
  }

  /** Forgetting the numbering commutes with moving. */
  lemma UnnumberedMoves(steps: seq<BuilderStep>, from: int, to: int)
    requires 0 <= from < |steps| && 0 <= |steps| + to
    ensures Unnumbered(ArrayMove(steps, from, to)) == ArrayMove(Unnumbered(steps), from, to)
  {
    var u := Unnumbered(steps);
    assert u[..from] + u[from + 1..] == Unnumbered(steps[..from] + steps[from + 1..]);
    var rest := steps[..from] + steps[from + 1..];
    var q := MoveTarget(|steps|, to);
    assert Unnumbered(rest)[..q] == Unnumbered(rest[..q]);
    assert Unnumbered(rest)[q..] == Unnumbered(rest[q..]);
  }

  /** `saveStepConfig`: the steps with the id get the new config. */
  function SaveStepConfig(steps: seq<BuilderStep>, id: string, config: Config): seq<BuilderStep> {
    seq(|steps|, i requires 0 <= i < |steps| => if steps[i].id == id then steps[i].(config := config) else steps[i])
  }

  /**
   * Saving changes nothing but the config of the steps with the id: ids,
   * types and order are kept, so a numbered list stays numbered; saving the
   * same config twice is saving it once, and an id no step has changes
   * nothing.
   */
  lemma SaveStepConfigOnlyConfig(steps: seq<BuilderStep>, id: string, config: Config)
    ensures var r := SaveStepConfig(steps, id, config);
            && |r| == |steps|
            && (forall i :: 0 <= i < |r| ==>
                  r[i] == steps[i].(config := if steps[i].id == id then config else steps[i].config))
            && (Numbered(steps) ==> Numbered(r))
            && SaveStepConfig(r, id, config) == r
            && ((forall i :: 0 <= i < |steps| ==> steps[i].id != id) ==> r == steps)
  {
  }
}
