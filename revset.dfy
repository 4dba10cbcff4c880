/**
 * Revision suffixes in src/blame.rs: `split_revset`, which folds trailing `~` and `~N`
 * segments into a step count, and the `head` / `head~i` labels `relative_origin` gives.
 */
module Revset {
  import opened Base
  import opened Text

  /** One round of `split_revset`'s loop: the text before the last `~` and the steps its
      suffix denotes (1 for an empty suffix, N for a `usize` N), or None when the loop stops. */
  function StripOnce(rev: string): (r: Option<(string, nat)>)
    ensures r.Some? ==> |r.value.0| < |rev|
  {
    match RSplitOnce(rev, '~')
    case None => None
    case Some((start, end)) =>
      if end == "" then Some((start, 1))
      else
        match ParseInteger(end, false, 0, USIZE_MAX)
        case Some(n) => Some((start, n))
        case None => None
  }

  /** A revision split into the commit it starts from and a number of first-parent steps. */
  datatype Split = Split(head: string, offset: nat)

  /** What `split_revset` returns: the revision with its trailing `~` and `~N`
      segments removed, and the number of first-parent steps they denote. */
  function StrippedRevset(rev: string): Split
    decreases |rev|
  {
    match StripOnce(rev)
    case None => Split(rev, 0)
    case Some((start, k)) =>
      var p := StrippedRevset(start);
      Split(p.head, p.offset + k)
  }

  /** `split_revset`: strips `~` segments from the end while what follows the last `~` is
      empty or a `usize`. */
  method SplitRevset(rev: string) returns (head: string, offset: nat)
    ensures Split(head, offset) == StrippedRevset(rev)
  {
    head, offset := rev, 0;
    ghost var goal := StrippedRevset(rev);
    while true
      invariant goal.head == StrippedRevset(head).head && goal.offset == StrippedRevset(head).offset + offset
      decreases |head|
    {
      var split := RSplitOnce(head, '~');
      if split.None? {
        assert StripOnce(head).None?;
        break;
      }
      var start, end := split.value.0, split.value.1;
      if end == "" {
        assert StripOnce(head) == Some((start, 1));
        head, offset := start, offset + 1;
      } else {
        var n := ParseInteger(end, false, 0, USIZE_MAX);
        if n.None? {
          assert StripOnce(head).None?;
          break;
        }
        assert StripOnce(head) == Some((start, n.value));
        head, offset := start, offset + n.value;
      }
    }
  }

  /** One stripped segment: the rest of the revision is normalised with `k` more steps. */
  lemma StripStep(rev: string, start: string, k: nat)
    requires StripOnce(rev) == Some((start, k))
    ensures StrippedRevset(rev) == Split(StrippedRevset(start).head, StrippedRevset(start).offset + k)
  {
  }

  /** A revision without `~` is its own head, with no offset. */
  lemma NoTildeIsItsOwnHead(rev: string)
    requires '~' !in rev
    ensures StrippedRevset(rev) == Split(rev, 0)
  {
  }

  lemma SplitAtLastTilde(h: string, t: string)
    requires '~' !in t
    ensures RSplitOnce(h + "~" + t, '~') == Some((h, t))
  {
    LastIndexAfter(h, '~', t);
    var s := h + "~" + t;
    assert s[..|h|] == h;
    assert s[|h| + 1..] == t;
  }

  /** A trailing `~` adds one step. */
  lemma StripsBareTilde(h: string)
    ensures StrippedRevset(h + "~") == Split(StrippedRevset(h).head, StrippedRevset(h).offset + 1)
  {
    SplitAtLastTilde(h, "");
    assert h + "~" + "" == h + "~";
    assert StripOnce(h + "~") == Some((h, 1));
    StripStep(h + "~", h, 1);
  }

  /** A trailing `~N` adds N steps. */
  lemma StripsNumberedTilde(h: string, n: nat)
    requires n <= USIZE_MAX
    ensures StrippedRevset(h + "~" + NatToString(n)) == Split(StrippedRevset(h).head, StrippedRevset(h).offset + n)
  {
    var t := NatToString(n);
    assert '~' !in t by {
      assert forall i :: 0 <= i < |t| ==> IsDigit(t[i]);
    }
    SplitAtLastTilde(h, t);
    ParseNatRoundTrip(n, USIZE_MAX);
    assert StripOnce(h + "~" + t) == Some((h, n));
    StripStep(h + "~" + t, h, n);
  }

  /** The head `split_revset` returns has no suffix left to strip: normalising it again
      changes nothing. */
  lemma {:induction false} StrippedHeadIsNormal(rev: string)
    ensures StrippedRevset(StrippedRevset(rev).head) == Split(StrippedRevset(rev).head, 0)
    decreases |rev|
  {
    match StripOnce(rev)
    case None =>
    case Some((start, _)) => StrippedHeadIsNormal(start);
  }

  /** `~2` after a plain revision is two steps below it. */
  lemma NumberedSuffix(h: string)
    requires '~' !in h
    ensures StrippedRevset(h + "~2") == Split(h, 2)
  {
    calc {
      StrippedRevset(h + "~2");
      { assert NatToString(2) == "2"; assert h + "~2" == h + "~" + NatToString(2); }
      StrippedRevset(h + "~" + NatToString(2));
      { StripsNumberedTilde(h, 2); NoTildeIsItsOwnHead(h); }
      Split(h, 2);
    }
  }

  /** `~~` after a plain revision is two steps below it. */
  lemma DoubleTildeSuffix(h: string)
    requires '~' !in h
    ensures StrippedRevset(h + "~~") == Split(h, 2)
  {
    calc {
      StrippedRevset(h + "~~");
      { assert h + "~~" == (h + "~") + "~"; }
      StrippedRevset((h + "~") + "~");
      { StripsBareTilde(h + "~"); StripsBareTilde(h); NoTildeIsItsOwnHead(h); }
      Split(h, 2);
    }
  }

  /** `~1~` after a plain revision mixes both forms: two steps below it. */
  lemma MixedSuffix(h: string)
    requires '~' !in h
    ensures StrippedRevset(h + "~1~") == Split(h, 2)
  {
    var h1 := h + "~" + NatToString(1);
    calc {
      StrippedRevset(h + "~1~");
      { assert NatToString(1) == "1"; assert h + "~1~" == h1 + "~"; }
      StrippedRevset(h1 + "~");
      { StripsBareTilde(h1); }
      Split(StrippedRevset(h1).head, StrippedRevset(h1).offset + 1);
      { assert StrippedRevset(h1) == Split(h, 1) by { StripsNumberedTilde(h, 1); NoTildeIsItsOwnHead(h); } }
      Split(h, 2);
    }
  }

  /** A suffix that is neither empty nor a `usize` stops the stripping at once, however
      many `~` segments precede it: the whole revision is the head, with no steps. */
  lemma StopsAtOtherSuffix(h: string, t: string)
    requires t != "" && '~' !in t && ParseInteger(t, false, 0, USIZE_MAX).None?
    ensures StrippedRevset(h + "~" + t) == Split(h + "~" + t, 0)
  {
    SplitAtLastTilde(h, t);
    assert StripOnce(h + "~" + t).None?;
  }

  /** For instance `main~2~x` is left whole. */
  lemma StopsAtLetterSuffix()
    ensures StrippedRevset("main~2~x") == Split("main~2~x", 0)
  {
    LetterIsNoCount();
    LetterSuffixParts();
    StopsAtOtherSuffix("main~2", "x");
  }

  lemma LetterIsNoCount()
    ensures "x" != "" && '~' !in "x" && ParseInteger("x", false, 0, USIZE_MAX).None?
  {
    assert !IsDigit("x"[0]);
  }

  lemma LetterSuffixParts()
    ensures "main~2" + "~" + "x" == "main~2~x"
  {
  }

  // ----- labels -----

  /** The label of the commit `i` first-parent steps below `head`. */
  function RelativeLabel(head: string, i: nat): string {
    if i == 0 then head else head + "~" + NatToString(i)
  }

  /** A label names its own step: normalising it gives back the head and the step count. */
  lemma LabelNamesItsStep(head: string, i: nat)
    requires StrippedRevset(head) == Split(head, 0)
    requires i <= USIZE_MAX
    ensures StrippedRevset(RelativeLabel(head, i)) == Split(head, i)
  {
    if i > 0 {
      StripsNumberedTilde(head, i);
    }
  }

}
