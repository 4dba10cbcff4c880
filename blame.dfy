/**
 * The annotation engine of src/blame.rs: normalising `~`/`~N` revision suffixes,
 * the table of blamed commits and their labels relative to the head revision, and the
 * first-parent walk that assigns those labels.
 *
 * Commits are identified by their hexadecimal id; git2's revision parsing, revwalk
 * and short ids are inputs (the walk as the sequence of ids it yields, the short ids
 * as a function).
 */
module Blame {
  import opened Base
  import opened Text
  import opened Revset

  /** A commit id (`git2::Oid`). */
  type ChangeId = string

  /** `git2::Oid::zero()`. */
  const ZERO_ID: ChangeId := "0000000000000000000000000000000000000000"

  // ----- annotations -----

  /** `Annotation`: a commit's short id and, once the walk reaches it, its relative label. */
  datatype Annotation = Annotation(short: string, relative: Option<string>)

  /** `Annotation::origin`: the relative label when there is one, else the short id. */
  function Origin(a: Annotation): (s: string)
    ensures a.relative.None? ==> s == a.short
    ensures a.relative.Some? ==> s == a.relative.value
  {
    a.relative.GetOr(a.short)
  }

  function Elems(s: seq<ChangeId>): set<ChangeId> {
    set x | x in s
  }

  lemma ElemsPrefix(s: seq<ChangeId>, i: nat)
    requires i < |s|
    ensures Elems(s[..i + 1]) == Elems(s[..i]) + {s[i]}
  {
    assert s[..i + 1] == s[..i] + [s[i]];
  }

  /** The short id a walked commit keeps: the one already in the table, else a fresh one. */
  function ShortFor(notes: map<ChangeId, Annotation>, id: ChangeId, shortOf: ChangeId -> string): string {
    if id in notes then notes[id].short else shortOf(id)
  }

  /** The table after labelling `id` with `label`: a missing id gets a fresh entry, and the
      label replaces any earlier one. */
  function Mark(notes: map<ChangeId, Annotation>, id: ChangeId, relative: string,
                shortOf: ChangeId -> string): map<ChangeId, Annotation>
  {
    notes[id := Annotation(ShortFor(notes, id, shortOf), Some(relative))]
  }

  /** The table after labelling the first `n` ids of the walk, step `k` getting
      `RelativeLabel(head, k + offset)`. */
  function Relabel(notes: map<ChangeId, Annotation>, walk: seq<ChangeId>, head: string,
                   offset: nat, shortOf: ChangeId -> string, n: nat): map<ChangeId, Annotation>
    requires n <= |walk|
    decreases n
  {
    if n == 0 then notes
    else Mark(Relabel(notes, walk, head, offset, shortOf, n - 1), walk[n - 1],
              RelativeLabel(head, n - 1 + offset), shortOf)
  }

  /** Marking adds `id` with the new label and its short id, and leaves every other entry. */
  lemma MarkSpec(notes: map<ChangeId, Annotation>, id: ChangeId, relative: string,
                 shortOf: ChangeId -> string)
    ensures Mark(notes, id, relative, shortOf).Keys == notes.Keys + {id}
    ensures Mark(notes, id, relative, shortOf)[id] == Annotation(ShortFor(notes, id, shortOf), Some(relative))
    ensures forall x :: x in notes && x != id ==> Mark(notes, id, relative, shortOf)[x] == notes[x]
  {
  }

  /** Labelling adds exactly the walked ids to the table. */
  lemma {:induction false} RelabelKeys(notes: map<ChangeId, Annotation>, walk: seq<ChangeId>,
                                       head: string, offset: nat, shortOf: ChangeId -> string,
                                       n: nat, id: ChangeId)
    requires n <= |walk|
    ensures id in Relabel(notes, walk, head, offset, shortOf, n) <==> id in notes || id in walk[..n]
    decreases n
  {
    if n > 0 {
      RelabelKeys(notes, walk, head, offset, shortOf, n - 1, id);
      assert walk[..n] == walk[..n - 1] + [walk[n - 1]];
    }
  }

  /** An entry the walk does not reach is left as it was. */
  lemma {:induction false} RelabelUntouched(notes: map<ChangeId, Annotation>, walk: seq<ChangeId>,
                                            head: string, offset: nat, shortOf: ChangeId -> string,
                                            n: nat, id: ChangeId)
    requires n <= |walk| && id in notes && id !in walk[..n]
    ensures id in Relabel(notes, walk, head, offset, shortOf, n)
    ensures Relabel(notes, walk, head, offset, shortOf, n)[id] == notes[id]
    decreases n
  {
    if n > 0 {
      assert walk[..n] == walk[..n - 1] + [walk[n - 1]];
      RelabelUntouched(notes, walk, head, offset, shortOf, n - 1, id);
    }
  }

  /** Every entry keeps its short id, and a walked commit missing from the table gets the
      one `shortOf` gives it. */
  lemma {:induction false} RelabelKeepsShort(notes: map<ChangeId, Annotation>, walk: seq<ChangeId>,
                                             head: string, offset: nat, shortOf: ChangeId -> string,
                                             n: nat, id: ChangeId)
    requires n <= |walk|
    ensures id in notes ==> id in Relabel(notes, walk, head, offset, shortOf, n)
    ensures id in Relabel(notes, walk, head, offset, shortOf, n) ==>
              Relabel(notes, walk, head, offset, shortOf, n)[id].short == ShortFor(notes, id, shortOf)
    decreases n
  {
    if n > 0 {
      RelabelKeepsShort(notes, walk, head, offset, shortOf, n - 1, id);
    }
  }

  /** The commit of step `i` carries the label of step `i` when no later one of the first
      `n` steps yields it again. */
  lemma {:induction false} RelabelLabelsStep(notes: map<ChangeId, Annotation>, walk: seq<ChangeId>,
                                             head: string, offset: nat, shortOf: ChangeId -> string,
                                             n: nat, i: nat)
    requires i < n <= |walk|
    requires forall j :: i < j < n ==> walk[j] != walk[i]
    ensures walk[i] in Relabel(notes, walk, head, offset, shortOf, n)
    ensures Relabel(notes, walk, head, offset, shortOf, n)[walk[i]].relative ==
              Some(RelativeLabel(head, i + offset))
    decreases n
  {
    var prev := Relabel(notes, walk, head, offset, shortOf, n - 1);
    MarkSpec(prev, walk[n - 1], RelativeLabel(head, n - 1 + offset), shortOf);
    if i < n - 1 {
      RelabelLabelsStep(notes, walk, head, offset, shortOf, n - 1, i);
    }
  }

  // ----- the walk's stopping point -----

  /** Every id of `queue` is among the first `n` walk steps. */
  predicate CoveredBy(queue: set<ChangeId>, walk: seq<ChangeId>, n: nat)
    requires n <= |walk|
  {
    forall id :: id in queue ==> id in walk[..n]
  }

  /** The number of steps the walk loop takes from step `i` on, with `queue` still to see. */
  function StepsFrom(queue: set<ChangeId>, walk: seq<ChangeId>, i: nat): (k: nat)
    requires 1 <= i <= |walk|
    ensures i <= k <= |walk|
    decreases |walk| - i
  {
    if queue == {} || i == |walk| then i else StepsFrom(queue - {walk[i]}, walk, i + 1)
  }

  /** The number of walk steps `relative_origin` takes when `queue` holds the blamed ids. */
  function StepsTaken(queue: set<ChangeId>, walk: seq<ChangeId>): (k: nat)
    requires |walk| > 0
    ensures 1 <= k <= |walk|
  {
    StepsFrom(queue - {walk[0]}, walk, 1)
  }

  lemma {:induction false} StepsFromSpec(queue0: set<ChangeId>, walk: seq<ChangeId>, i: nat, queue: set<ChangeId>)
    requires 1 <= i <= |walk|
    requires queue == queue0 - Elems(walk[..i])
    requires forall j :: 1 <= j < i ==> !CoveredBy(queue0, walk, j)
    ensures i <= StepsFrom(queue, walk, i) <= |walk|
    ensures StepsFrom(queue, walk, i) < |walk| ==> CoveredBy(queue0, walk, StepsFrom(queue, walk, i))
    ensures forall j :: 1 <= j < StepsFrom(queue, walk, i) ==> !CoveredBy(queue0, walk, j)
    decreases |walk| - i
  {
    if queue == {} {
      assert CoveredBy(queue0, walk, i) by {
        forall id | id in queue0 ensures id in walk[..i] {
          assert id !in queue;
        }
      }
    } else if i < |walk| {
      var id :| id in queue;
      assert !CoveredBy(queue0, walk, i);
      ElemsPrefix(walk, i);
      StepsFromSpec(queue0, walk, i + 1, queue - {walk[i]});
    }
  }

  /** `relative_origin` takes at least one step of a non-empty walk, stops at the first step
      after which every blamed id has been seen, and otherwise walks to the end. */
  lemma StepsTakenSpec(queue: set<ChangeId>, walk: seq<ChangeId>)
    requires |walk| > 0
    ensures 1 <= StepsTaken(queue, walk) <= |walk|
    ensures StepsTaken(queue, walk) < |walk| ==> CoveredBy(queue, walk, StepsTaken(queue, walk))
    ensures forall j :: 1 <= j < StepsTaken(queue, walk) ==> !CoveredBy(queue, walk, j)
  {
    ElemsPrefix(walk, 0);
    assert walk[..0] == [];
    StepsFromSpec(queue, walk, 1, queue - {walk[0]});
  }

  /** The annotations table of src/blame.rs, keyed by commit id. */
  class Annotations {
    var notes: map<ChangeId, Annotation>

    /** `Annotations::new`: one unlabelled entry per distinct commit id among the hunks. */
    constructor New(hunkIds: seq<ChangeId>, shortOf: ChangeId -> string)
      ensures notes.Keys == Elems(hunkIds)
      ensures forall id :: id in notes ==> notes[id] == Annotation(shortOf(id), None)
    {
      var m := map[];
      for i := 0 to |hunkIds|
        invariant m.Keys == Elems(hunkIds[..i])
        invariant forall id :: id in m ==> m[id] == Annotation(shortOf(id), None)
      {
        ElemsPrefix(hunkIds, i);
        var id := hunkIds[i];
        if id !in m {
          m := m[id := Annotation(shortOf(id), None)];
        }
      }
      assert hunkIds[..|hunkIds|] == hunkIds;
      notes := m;
    }

    /** `Annotations::relative_origin` for the revision `rev`, where `walk` is what the
        first-parent revwalk from it yields. */
    method RelativeOrigin(rev: string, walk: seq<ChangeId>, shortOf: ChangeId -> string)
      modifies this`notes
      ensures var Split(head, offset) := StrippedRevset(rev);
              notes == Relabel(old(notes), walk, head, offset, shortOf,
                               if |walk| == 0 then 0 else StepsTaken(old(notes).Keys, walk))
    {
      ghost var notes0 := notes;
      var queue := notes.Keys;
      var head, offset := SplitRevset(rev);
      var i := 0;
      while i < |walk|
        invariant i <= |walk|
        invariant notes == Relabel(notes0, walk, head, offset, shortOf, i)
        invariant i == 0 ==> queue == notes0.Keys
        invariant i > 0 ==> queue != {} && StepsTaken(notes0.Keys, walk) == StepsFrom(queue, walk, i)
        decreases |walk| - i
      {
        var id := walk[i];
        var relative := if i + offset == 0 then head else head + "~" + NatToString(i + offset);
        var short := if id in notes then notes[id].short else shortOf(id);
        assert short == ShortFor(notes, id, shortOf);
        RelabelStep(notes0, walk, head, offset, shortOf, i);
        StepsStep(notes0.Keys, queue, walk, i);
        notes := notes[id := Annotation(short, Some(relative))];
        queue := queue - {id};
        i := i + 1;
        if queue == {} {
          break;
        }
      }
      assert |walk| > 0 ==> StepsTaken(notes0.Keys, walk) == i;
    }
  }

  /** One more walk step marks its commit with its label. */
  lemma RelabelStep(notes: map<ChangeId, Annotation>, walk: seq<ChangeId>, head: string,
                    offset: nat, shortOf: ChangeId -> string, i: nat)
    requires i < |walk|
    ensures var prev := Relabel(notes, walk, head, offset, shortOf, i);
            Relabel(notes, walk, head, offset, shortOf, i + 1) ==
              prev[walk[i] := Annotation(ShortFor(prev, walk[i], shortOf),
                                         Some(if i + offset == 0 then head
                                              else head + "~" + NatToString(i + offset)))]
  {
  }

  /** One more walk step removes its commit from the ids still to see. */
  lemma StepsStep(blamed: set<ChangeId>, queue: set<ChangeId>, walk: seq<ChangeId>, i: nat)
    requires i < |walk|
    requires i == 0 ==> queue == blamed
    requires i > 0 ==> queue != {} && StepsTaken(blamed, walk) == StepsFrom(queue, walk, i)
    ensures StepsTaken(blamed, walk) == StepsFrom(queue - {walk[i]}, walk, i + 1)
    ensures queue - {walk[i]} == {} ==> StepsTaken(blamed, walk) == i + 1
  {
  }

  /** After the walk, a blamed commit it did not reach still shows its short id, and the
      commit of a step that no later step yields again shows that step's label. */
  lemma OriginsAfterWalk(notes: map<ChangeId, Annotation>, walk: seq<ChangeId>, head: string,
                         offset: nat, shortOf: ChangeId -> string, n: nat, id: ChangeId, i: nat)
    requires n <= |walk|
    requires forall x :: x in notes ==> notes[x].relative.None?
    ensures id in notes && id !in walk[..n] ==>
              id in Relabel(notes, walk, head, offset, shortOf, n) &&
              Origin(Relabel(notes, walk, head, offset, shortOf, n)[id]) == notes[id].short
    ensures i < n && (forall j :: i < j < n ==> walk[j] != walk[i]) ==>
              walk[i] in Relabel(notes, walk, head, offset, shortOf, n) &&
              Origin(Relabel(notes, walk, head, offset, shortOf, n)[walk[i]]) == RelativeLabel(head, i + offset)
  {
    if id in notes && id !in walk[..n] {
      RelabelUntouched(notes, walk, head, offset, shortOf, n, id);
    }
    if i < n && (forall j :: i < j < n ==> walk[j] != walk[i]) {
      RelabelLabelsStep(notes, walk, head, offset, shortOf, n, i);
    }
  }

  // ----- running the walk again -----

  /** An id among the first `n` steps has a last step there. */
  lemma {:induction false} LastStepOf(walk: seq<ChangeId>, n: nat, id: ChangeId) returns (i: nat)
    requires n <= |walk| && id in walk[..n]
    ensures i < n && walk[i] == id
    ensures forall j :: i < j < n ==> walk[j] != id
    decreases n
  {
    if walk[n - 1] == id {
      i := n - 1;
    } else {
      assert walk[..n] == walk[..n - 1] + [walk[n - 1]];
      i := LastStepOf(walk, n - 1, id);
    }
  }

  /** Labelling the same steps a second time changes nothing: every walked id already has
      its entry, keeps its short id and gets the label of its last step again. */
  lemma RelabelAgain(notes: map<ChangeId, Annotation>, walk: seq<ChangeId>, head: string,
                     offset: nat, shortOf: ChangeId -> string, n: nat)
    requires n <= |walk|
    ensures var once := Relabel(notes, walk, head, offset, shortOf, n);
            Relabel(once, walk, head, offset, shortOf, n) == once
  {
    var once := Relabel(notes, walk, head, offset, shortOf, n);
    var twice := Relabel(once, walk, head, offset, shortOf, n);
    forall id
      ensures id in twice <==> id in once
    {
      RelabelKeys(notes, walk, head, offset, shortOf, n, id);
      RelabelKeys(once, walk, head, offset, shortOf, n, id);
    }
    forall id | id in once
      ensures twice[id] == once[id]
    {
      if id in walk[..n] {
        var i := LastStepOf(walk, n, id);
        RelabelLabelsStep(notes, walk, head, offset, shortOf, n, i);
        RelabelLabelsStep(once, walk, head, offset, shortOf, n, i);
        RelabelKeepsShort(once, walk, head, offset, shortOf, n, id);
      } else {
        RelabelUntouched(once, walk, head, offset, shortOf, n, id);
      }
    }
  }

  /** The walk stops at the same step when the table also holds the ids the first run
      walked: those are covered by then, and the table's own ids are not covered earlier. */
  lemma StepsTakenAgain(notes: map<ChangeId, Annotation>, walk: seq<ChangeId>, head: string,
                        offset: nat, shortOf: ChangeId -> string)
    requires |walk| > 0
    ensures var n := StepsTaken(notes.Keys, walk);
            StepsTaken(Relabel(notes, walk, head, offset, shortOf, n).Keys, walk) == n
  {
    var n := StepsTaken(notes.Keys, walk);
    var keys := Relabel(notes, walk, head, offset, shortOf, n).Keys;
    var m := StepsTaken(keys, walk);
    StepsTakenSpec(notes.Keys, walk);
    StepsTakenSpec(keys, walk);
    forall id | id in keys
      ensures id in notes.Keys || id in walk[..n]
    {
      RelabelKeys(notes, walk, head, offset, shortOf, n, id);
    }
    forall id | id in notes.Keys
      ensures id in keys
    {
      RelabelKeys(notes, walk, head, offset, shortOf, n, id);
    }
    if m < n {
      assert CoveredBy(keys, walk, m);
      assert CoveredBy(notes.Keys, walk, m);
      assert false;
    }
    if n < m {
      assert CoveredBy(notes.Keys, walk, n);
      assert CoveredBy(keys, walk, n);
      assert false;
    }
  }

  /** `relative_origin` is idempotent: a second run over the same walk takes the same steps
      and leaves the table as the first run left it. */
  lemma RelativeOriginIdempotent(notes: map<ChangeId, Annotation>, walk: seq<ChangeId>, head: string,
                                 offset: nat, shortOf: ChangeId -> string)
    requires |walk| > 0
    ensures var once := Relabel(notes, walk, head, offset, shortOf, StepsTaken(notes.Keys, walk));
            Relabel(once, walk, head, offset, shortOf, StepsTaken(once.Keys, walk)) == once
  {
    StepsTakenAgain(notes, walk, head, offset, shortOf);
    RelabelAgain(notes, walk, head, offset, shortOf, StepsTaken(notes.Keys, walk));
  }
}
