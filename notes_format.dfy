/** `formatNotes` (static/script.js:164-182): split the notes on `'\n'`,
    append one rendered block per line, then wrap list items with
    `formatted.replace(/(<li>.*<\/li>)+/g, '<ul>$&</ul>')`.

    The regex is modelled as JavaScript runs it: the search goes left to right,
    a match starts at the leftmost `<li>` from which a `</li>` can be reached
    without crossing a line terminator, greedy `.*` carries it to the LAST such
    `</li>`, and the search resumes after the match. When no block text
    contains `<li>`, `</li>` or a line terminator, this inserts one `<ul>`
    before the first list item and one `</ul>` after the last one, so headings
    and paragraphs standing between list items end up inside the list. */
module NotesFormat {
  import opened Wrappers
  import opened Text
  import opened Patterns
  import opened Markup

  const OpenLi := "<li>"
  const CloseLi := "</li>"

  /** Where the match that starts at `s[0]` ends, if one starts there. */
  function MatchEnd(s: string): (e: Option<nat>)
    ensures e.Some? ==> |OpenLi| + |CloseLi| <= e.value <= |s|
  {
    if OpenLi <= s then
      var r := LastClose(s[|OpenLi|..], CloseLi);
      if r.Some? then Some(|OpenLi| + r.value + |CloseLi|) else None
    else None
  }

  /** `formatted.replace(/(<li>.*<\/li>)+/g, '<ul>$&</ul>')`. The group's `+`
      adds nothing to what one iteration matches: the greedy `.*` of the first
      iteration already stops at the last `</li>` reachable without crossing a
      line terminator, and a further `<li>…</li>` iteration could only end at a
      `</li>` that the first one could have reached, so every match is one
      iteration long. */
  function WrapLists(s: string): string
    decreases |s|
  {
    if |s| == 0 then ""
    else
      match MatchEnd(s)
      case Some(e) => "<ul>" + s[..e] + "</ul>" + WrapLists(s[e..])
      case None => [s[0]] + WrapLists(s[1..])
  }

  /** One character copied: no `<li>` starts here. */
  lemma WrapCopy(s: string)
    requires |s| > 0 && !(OpenLi <= s)
    ensures WrapLists(s) == [s[0]] + WrapLists(s[1..])
  {
  }

  /** A match starts at a `<li>` and runs through the last `</li>` reachable
      from it. */
  lemma MatchEndAt(s: string, q: nat)
    requires OpenLi <= s && LastClose(s[|OpenLi|..], CloseLi) == Some(q)
    ensures MatchEnd(s) == Some(|OpenLi| + q + |CloseLi|)
  {
  }

  /** One match is wrapped, and the search goes on after it. */
  lemma WrapMatch(s: string, e: nat)
    requires MatchEnd(s) == Some(e)
    ensures e <= |s|
    ensures WrapLists(s) == "<ul>" + s[..e] + "</ul>" + WrapLists(s[e..])
  {
  }

  lemma InsertAssoc(a: string, m: string, z: string)
    ensures a + ("<ul>" + m + "</ul>" + z) == a + "<ul>" + m + "</ul>" + z
  {
  }

  /** Text that cannot take part in a match by itself. */
  predicate SafeText(t: string)
  {
    NoLineTerminator(t) && Free(OpenLi, t) && Free(CloseLi, t)
  }

  predicate SafeBlocks(bs: seq<Block>)
  {
    forall i | 0 <= i < |bs| :: SafeText(bs[i].text)
  }

  predicate HasItem(bs: seq<Block>)
  {
    exists i | 0 <= i < |bs| :: bs[i].ListItem?
  }

  function FirstItem(bs: seq<Block>): (f: nat)
    requires HasItem(bs)
    ensures f < |bs| && bs[f].ListItem?
    ensures forall j | 0 <= j < f :: !bs[j].ListItem?
  {
    if bs[0].ListItem? then 0
    else
      assert HasItem(bs[1..]) by {
        var i :| 0 <= i < |bs| && bs[i].ListItem?;
        assert bs[1..][i - 1] == bs[i];
      }
      1 + FirstItem(bs[1..])
  }

  function LastItem(bs: seq<Block>): (l: nat)
    requires HasItem(bs)
    ensures l < |bs| && bs[l].ListItem?
    ensures forall j | l < j < |bs| :: !bs[j].ListItem?
  {
    if bs[|bs| - 1].ListItem? then |bs| - 1
    else
      assert HasItem(bs[..|bs| - 1]) by {
        var i :| 0 <= i < |bs| && bs[i].ListItem?;
        assert bs[..|bs| - 1][i] == bs[i];
      }
      LastItem(bs[..|bs| - 1])
  }

  /** The markup the wrap is meant to give for rendered blocks: all of them
      in order, with one `<ul>` before the first list item and one `</ul>`
      after the last, whatever stands between. */
  function Grouped(bs: seq<Block>): string
  {
    if !HasItem(bs) then RenderAll(bs) else GroupedAt(bs, FirstItem(bs), LastItem(bs))
  }

  /** The blocks rendered with `<ul>` before block `f` and `</ul>` after block `l`. */
  function GroupedAt(bs: seq<Block>, f: nat, l: nat): string
    requires f <= l < |bs|
  {
    RenderAll(bs[..f]) + "<ul>" + RenderAll(bs[f..l + 1]) + "</ul>" + RenderAll(bs[l + 1..])
  }

  /** A `<li>` starts inside a rendered block only where a list item opens. */
  lemma OpenLiOnlyAtItemStart(b: Block, rest: string, k: nat)
    requires SafeText(b.text)
    requires k < |Render(b)|
    requires !b.ListItem? || k != 0
    ensures !(OpenLi <= Render(b)[k..] + rest)
  {
    RenderShape(b);
    var O, c, C := Opening(b), b.text, Closing(b);
    var T := Render(b)[k..] + rest;
    assert "<li>"[1..] == "li>";
    if k == 0 {
      assert T[1] == O[1];
    } else if k == |O| + |c| {
      assert T[1] == C[1];
    } else {
      NotAtNonTag(O, c, C, rest, OpenLi, k);
    }
  }

  /** A `</li>` starts inside a rendered block only where a list item closes. */
  lemma CloseLiOnlyAtItemEnd(b: Block, rest: string, k: nat)
    requires SafeText(b.text)
    requires k < |Render(b)|
    requires !b.ListItem? || k != |Render(b)| - |CloseLi|
    ensures !(CloseLi <= Render(b)[k..] + rest)
  {
    RenderShape(b);
    var O, c, C := Opening(b), b.text, Closing(b);
    var T := Render(b)[k..] + rest;
    assert "</li>"[1..] == "/li>";
    if k == 0 {
      assert T[1] == O[1];
    } else if k == |O| + |c| {
      assert T[2] == C[2];
    } else {
      NotAtNonTag(O, c, C, rest, CloseLi, k);
    }
  }

  lemma {:induction false} RenderAllNoLineTerminator(bs: seq<Block>)
    requires SafeBlocks(bs)
    ensures NoLineTerminator(RenderAll(bs))
    decreases |bs|
  {
    if |bs| > 0 {
      RenderShape(bs[0]);
      RenderAllNoLineTerminator(bs[1..]);
      var s := RenderAll(bs);
      var O, c, C := Opening(bs[0]), bs[0].text, Closing(bs[0]);
      assert s == O + c + C + RenderAll(bs[1..]);
    }
  }

  /** Text in which no `<li>` starts passes through the wrap unchanged. */
  lemma {:induction false} CopyThrough(x: string, rest: string)
    requires forall k | 0 <= k < |x| :: !(OpenLi <= x[k..] + rest)
    ensures WrapLists(x + rest) == x + WrapLists(rest)
    decreases |x|
  {
    if |x| == 0 {
      assert x + rest == rest;
    } else {
      var s := x + rest;
      assert s[1..] == x[1..] + rest;
      assert x[0..] == x;
      WrapCopy(s);
      forall k | 0 <= k < |x| - 1 ensures !(OpenLi <= x[1..][k..] + rest) {
        assert x[1..][k..] == x[k + 1..];
      }
      CopyThrough(x[1..], rest);
      Assoc([x[0]], x[1..], WrapLists(rest));
      assert [x[0]] + x[1..] == x;
    }
  }

  /** The wrap leaves alone any text without a `<li>`. */
  lemma NoItemsUnchanged(s: string)
    requires Free(OpenLi, s)
    ensures WrapLists(s) == s
  {
    forall k | 0 <= k < |s| ensures !(OpenLi <= s[k..] + "") {
      assert s[k..] + "" == s[k..];
    }
    CopyThrough(s, "");
    assert s + "" == s;
  }

  /** A heading or a paragraph passes through the wrap unchanged. */
  lemma PlainBlockCopies(b: Block, rest: string)
    requires SafeText(b.text) && !b.ListItem?
    ensures WrapLists(Render(b) + rest) == Render(b) + WrapLists(rest)
  {
    var R := Render(b);
    forall k | 0 <= k < |R| ensures !(OpenLi <= R[k..] + rest) {
      OpenLiOnlyAtItemStart(b, rest, k);
    }
    CopyThrough(R, rest);
  }

  /** Headings and paragraphs pass through the wrap unchanged. */
  lemma {:induction false} SkipPlain(bs: seq<Block>, rest: string)
    requires SafeBlocks(bs)
    requires forall i | 0 <= i < |bs| :: !bs[i].ListItem?
    ensures WrapLists(RenderAll(bs) + rest) == RenderAll(bs) + WrapLists(rest)
    decreases |bs|
  {
    if |bs| == 0 {
      assert RenderAll(bs) + rest == rest;
    } else {
      var R, tail := Render(bs[0]), RenderAll(bs[1..]);
      PlainBlockCopies(bs[0], tail + rest);
      SkipPlain(bs[1..], rest);
      Assoc(R, tail, rest);
      Assoc(R, tail, WrapLists(rest));
    }
  }

  /** No `</li>` starts in rendered headings and paragraphs. */
  lemma {:induction false} NoCloseIn(bs: seq<Block>)
    requires SafeBlocks(bs)
    requires forall i | 0 <= i < |bs| :: !bs[i].ListItem?
    ensures forall k | 0 <= k <= |RenderAll(bs)| :: !(CloseLi <= RenderAll(bs)[k..])
    decreases |bs|
  {
    if |bs| > 0 {
      var R, tail := Render(bs[0]), RenderAll(bs[1..]);
      NoCloseIn(bs[1..]);
      forall k | 0 <= k <= |RenderAll(bs)| ensures !(CloseLi <= RenderAll(bs)[k..]) {
        if k < |R| {
          CloseLiOnlyAtItemEnd(bs[0], tail, k);
          assert RenderAll(bs)[k..] == R[k..] + tail;
        } else {
          assert RenderAll(bs)[k..] == tail[k - |R|..];
        }
      }
    }
  }

  /** Rendered blocks that end with a list item end with its `</li>`, and no
      other `</li>` starts inside that closing tag. */
  lemma EndsWithClose(M: seq<Block>, rest: string)
    requires |M| > 0 && M[|M| - 1].ListItem?
    ensures |RenderAll(M)| >= 9
    ensures RenderAll(M)[|RenderAll(M)| - |CloseLi|..] == CloseLi
    ensures forall k | |RenderAll(M)| - |CloseLi| < k < |RenderAll(M)| :: !(CloseLi <= RenderAll(M)[k..] + rest)
  {
    var front, last := M[..|M| - 1], M[|M| - 1];
    LastCut(M, front, last);
    RenderAllSnocSeq(front, last);
    ItemEndsWithClose(last);
    SuffixOfConcat(RenderAll(front), Render(last));
    CloseHasOneStart(RenderAll(M), rest);
  }

  lemma LastCut(M: seq<Block>, front: seq<Block>, last: Block)
    requires |M| > 0 && front == M[..|M| - 1] && last == M[|M| - 1]
    ensures M == front + [last]
  {
  }

  lemma ItemEndsWithClose(b: Block)
    requires b.ListItem?
    ensures |Render(b)| >= 9 && Render(b)[|Render(b)| - 5..] == CloseLi
  {
  }

  lemma SuffixOfConcat(a: string, b: string)
    requires |b| >= 5
    ensures (a + b)[|a + b| - 5..] == b[|b| - 5..]
  {
  }

  /** Inside a trailing `</li>`, no other `</li>` starts. */
  lemma CloseHasOneStart(sM: string, rest: string)
    requires |sM| >= 5 && sM[|sM| - 5..] == CloseLi
    ensures forall k | |sM| - |CloseLi| < k < |sM| :: !(CloseLi <= sM[k..] + rest)
  {
    forall k | |sM| - 5 < k < |sM| ensures !(CloseLi <= sM[k..] + rest) {
      assert (sM[k..] + rest)[0] == "</li>"[k - |sM| + 5] != '<';
    }
  }

  /** No `</li>` starts after the start of the last one. */
  lemma NoCloseBeyond(sM: string, sZ: string)
    requires |sM| >= 5
    requires forall k | |sM| - 5 < k < |sM| :: !(CloseLi <= sM[k..] + sZ)
    requires forall k | 0 <= k <= |sZ| :: !(CloseLi <= sZ[k..])
    ensures forall j | |sM| - 5 < j <= |sM| + |sZ| :: !(CloseLi <= (sM + sZ)[j..])
  {
    forall j | |sM| - 5 < j <= |sM| + |sZ| ensures !(CloseLi <= (sM + sZ)[j..]) {
      if j < |sM| {
        assert (sM + sZ)[j..] == sM[j..] + sZ;
      } else {
        assert (sM + sZ)[j..] == sZ[j - |sM|..];
      }
    }
  }

  /** Text that opens with `<li>`, ends its line-terminator-free first part
      with `</li>`, and has no `</li>` after that: the greedy match after the
      opening `<li>` stops at that last `</li>`. */
  lemma LastCloseAfterOpen(sM: string, sZ: string)
    requires |sM| >= 9 && sM[..4] == OpenLi && sM[|sM| - 5..] == CloseLi
    requires NoLineTerminator(sM)
    requires forall j | |sM| - 5 < j <= |sM| + |sZ| :: !(CloseLi <= (sM + sZ)[j..])
    ensures LastClose((sM + sZ)[|OpenLi|..], CloseLi) == Some(|sM| - 9)
  {
    var s := sM + sZ;
    var P := |sM| - 9;
    var t := s[4..];
    assert t[..P] == sM[4..|sM| - 5];
    forall q | P < q <= |t| ensures !(CloseLi <= t[q..]) {
      assert t[q..] == s[q + 4..];
    }
    assert t[P..] == sM[|sM| - 5..] + sZ;
    LastCloseIs(t, CloseLi, P);
  }

  /** In rendered blocks that start with a list item and end with the last
      one, greedy `.*</li>` after the first `<li>` runs to the very end of the
      last list item. */
  lemma LastCloseAtLastItem(M: seq<Block>, Z: seq<Block>)
    requires |M| > 0 && M[0].ListItem? && M[|M| - 1].ListItem?
    requires SafeBlocks(M) && SafeBlocks(Z)
    requires forall i | 0 <= i < |Z| :: !Z[i].ListItem?
    ensures |RenderAll(M)| >= 9
    ensures OpenLi <= RenderAll(M) + RenderAll(Z)
    ensures LastClose((RenderAll(M) + RenderAll(Z))[|OpenLi|..], CloseLi) == Some(|RenderAll(M)| - 9)
  {
    ItemRunFacts(M, Z);
    MatchFromOpen(RenderAll(M), RenderAll(Z));
  }

  /** What the match needs to know about the two renderings. */
  lemma ItemRunFacts(M: seq<Block>, Z: seq<Block>)
    requires |M| > 0 && M[0].ListItem? && M[|M| - 1].ListItem?
    requires SafeBlocks(M) && SafeBlocks(Z)
    requires forall i | 0 <= i < |Z| :: !Z[i].ListItem?
    ensures var sM, sZ := RenderAll(M), RenderAll(Z);
            && |sM| >= 9 && sM[..|OpenLi|] == OpenLi && sM[|sM| - |CloseLi|..] == CloseLi
            && NoLineTerminator(sM)
            && (forall k | |sM| - |CloseLi| < k < |sM| :: !(CloseLi <= sM[k..] + sZ))
            && (forall k | 0 <= k <= |sZ| :: !(CloseLi <= sZ[k..]))
  {
    EndsWithClose(M, RenderAll(Z));
    StartsWithOpen(M);
    RenderAllNoLineTerminator(M);
    NoCloseIn(Z);
  }

  /** The same on the two renderings as text. */
  lemma MatchFromOpen(sM: string, sZ: string)
    requires |sM| >= 9 && sM[..|OpenLi|] == OpenLi && sM[|sM| - |CloseLi|..] == CloseLi
    requires NoLineTerminator(sM)
    requires forall k | |sM| - |CloseLi| < k < |sM| :: !(CloseLi <= sM[k..] + sZ)
    requires forall k | 0 <= k <= |sZ| :: !(CloseLi <= sZ[k..])
    ensures OpenLi <= sM + sZ
    ensures LastClose((sM + sZ)[|OpenLi|..], CloseLi) == Some(|sM| - 9)
  {
    PrefixOfConcat(sM, sZ);
    NoCloseBeyond(sM, sZ);
    LastCloseAfterOpen(sM, sZ);
  }

  /** From the first list item on: one match runs to the end of the last list
      item, and what follows it is copied. */
  lemma WrapFromFirstItem(M: seq<Block>, Z: seq<Block>)
    requires |M| > 0 && M[0].ListItem? && M[|M| - 1].ListItem?
    requires SafeBlocks(M) && SafeBlocks(Z)
    requires forall i | 0 <= i < |Z| :: !Z[i].ListItem?
    ensures WrapLists(RenderAll(M) + RenderAll(Z)) == "<ul>" + RenderAll(M) + "</ul>" + RenderAll(Z)
  {
    var sM, sZ := RenderAll(M), RenderAll(Z);
    var s := sM + sZ;
    LastCloseAtLastItem(M, Z);
    MatchEndAt(s, |sM| - 9);
    WrapMatch(s, |sM|);
    assert s[..|sM|] == sM && s[|sM|..] == sZ;
    SkipPlain(Z, "");
    assert sZ + "" == sZ;
  }

  /** The wrap puts one `<ul>` before the first list item and one `</ul>` after
      the last, when no block text contains `<li>`, `</li>` or a line
      terminator. */
  lemma WrapListsGroups(bs: seq<Block>)
    requires SafeBlocks(bs)
    ensures WrapLists(RenderAll(bs)) == Grouped(bs)
  {
    if !HasItem(bs) {
      SkipPlain(bs, "");
      assert RenderAll(bs) + "" == RenderAll(bs);
    } else {
      WrapListsGroupsItems(bs, FirstItem(bs), LastItem(bs));
    }
  }

  lemma RenderAllSnoc(bs: seq<Block>, i: nat)
    requires i < |bs|
    ensures RenderAll(bs[..i + 1]) == RenderAll(bs[..i]) + Render(bs[i])
  {
    TakeSnoc(bs, i);
    RenderAllSnocSeq(bs[..i], bs[i]);
  }

  lemma TakeSnoc(bs: seq<Block>, i: nat)
    requires i < |bs|
    ensures bs[..i + 1] == bs[..i] + [bs[i]]
  {
  }

  lemma RenderAllSnocSeq(front: seq<Block>, b: Block)
    ensures RenderAll(front + [b]) == RenderAll(front) + Render(b)
  {
    RenderAllAppend(front, [b]);
    assert RenderAll([b]) == Render(b) + RenderAll([]);
  }

  /** The rendering cut before the first list item and after the last. */
  lemma RenderAllThreeParts(bs: seq<Block>, f: nat, l: nat)
    requires f <= l < |bs|
    ensures RenderAll(bs) == RenderAll(bs[..f]) + RenderAll(bs[f..l + 1]) + RenderAll(bs[l + 1..])
  {
    CutThree(bs, f, l);
    RenderThree(bs[..f], bs[f..l + 1], bs[l + 1..]);
  }

  lemma CutThree(bs: seq<Block>, f: nat, l: nat)
    requires f <= l < |bs|
    ensures bs == bs[..f] + (bs[f..l + 1] + bs[l + 1..])
  {
  }

  lemma RenderThree(A: seq<Block>, M: seq<Block>, Z: seq<Block>)
    ensures RenderAll(A + (M + Z)) == RenderAll(A) + RenderAll(M) + RenderAll(Z)
  {
    RenderAllAppend(A, M + Z);
    RenderAllAppend(M, Z);
    Assoc(RenderAll(A), RenderAll(M), RenderAll(Z));
  }

  /** Cut at the first and the last list item: plain blocks before, a run
      that starts and ends with a list item, plain blocks after. */
  lemma CutAtItems(bs: seq<Block>, f: nat, l: nat, A: seq<Block>, M: seq<Block>, Z: seq<Block>)
    requires HasItem(bs) && f == FirstItem(bs) && l == LastItem(bs)
    requires f <= l < |bs| && A == bs[..f] && M == bs[f..l + 1] && Z == bs[l + 1..]
    ensures forall i | 0 <= i < |A| :: !A[i].ListItem?
    ensures |M| > 0 && M[0].ListItem? && M[|M| - 1].ListItem?
    ensures forall i | 0 <= i < |Z| :: !Z[i].ListItem?
  {
    PlainBefore(bs, f, A);
    PlainAfter(bs, l, Z);
    RunEnds(bs, f, l, M);
  }

  lemma GroupedAsParts(bs: seq<Block>, f: nat, l: nat)
    requires HasItem(bs) && f == FirstItem(bs) && l == LastItem(bs)
    ensures f <= l < |bs|
    ensures Grouped(bs) == RenderAll(bs[..f]) + "<ul>" + RenderAll(bs[f..l + 1]) + "</ul>" + RenderAll(bs[l + 1..])
  {
    FirstNotAfterLast(bs, f, l);
    GroupedIsAt(bs, f, l);
    GroupedAtParts(bs, f, l);
  }

  lemma GroupedAtParts(bs: seq<Block>, f: nat, l: nat)
    requires f <= l < |bs|
    ensures GroupedAt(bs, f, l) == RenderAll(bs[..f]) + "<ul>" + RenderAll(bs[f..l + 1]) + "</ul>" + RenderAll(bs[l + 1..])
  {
  }

  lemma FirstNotAfterLast(bs: seq<Block>, f: nat, l: nat)
    requires HasItem(bs) && f == FirstItem(bs) && l == LastItem(bs)
    ensures f <= l < |bs|
  {
    assert bs[l].ListItem?;
  }

  lemma GroupedIsAt(bs: seq<Block>, f: nat, l: nat)
    requires HasItem(bs) && f == FirstItem(bs) && l == LastItem(bs) && f <= l < |bs|
    ensures Grouped(bs) == GroupedAt(bs, f, l)
  {
  }

  lemma PlainBefore(bs: seq<Block>, f: nat, A: seq<Block>)
    requires f <= |bs| && A == bs[..f]
    requires forall j | 0 <= j < f :: !bs[j].ListItem?
    ensures forall i | 0 <= i < |A| :: !A[i].ListItem?
  {
    assert forall i | 0 <= i < |A| :: A[i] == bs[i];
  }

  lemma PlainAfter(bs: seq<Block>, l: nat, Z: seq<Block>)
    requires l < |bs| && Z == bs[l + 1..]
    requires forall j | l < j < |bs| :: !bs[j].ListItem?
    ensures forall i | 0 <= i < |Z| :: !Z[i].ListItem?
  {
    assert forall i | 0 <= i < |Z| :: Z[i] == bs[l + 1 + i];
  }

  lemma RunEnds(bs: seq<Block>, f: nat, l: nat, M: seq<Block>)
    requires f <= l < |bs| && M == bs[f..l + 1] && bs[f].ListItem? && bs[l].ListItem?
    ensures |M| > 0 && M[0].ListItem? && M[|M| - 1].ListItem?
  {
    assert M[0] == bs[f];
    assert M[|M| - 1] == bs[l];
  }

  /** The cut pieces of safe blocks are safe. */
  lemma SafeSlice(bs: seq<Block>, i: nat, j: nat)
    requires i <= j <= |bs| && SafeBlocks(bs)
    ensures SafeBlocks(bs[i..j])
  {
    assert forall k | 0 <= k < j - i :: bs[i..j][k] == bs[i + k];
  }

  /** The wrap on the rendering of the three pieces. */
  lemma WrapThreeParts(A: seq<Block>, M: seq<Block>, Z: seq<Block>)
    requires SafeBlocks(A) && SafeBlocks(M) && SafeBlocks(Z)
    requires forall i | 0 <= i < |A| :: !A[i].ListItem?
    requires |M| > 0 && M[0].ListItem? && M[|M| - 1].ListItem?
    requires forall i | 0 <= i < |Z| :: !Z[i].ListItem?
    ensures WrapLists(RenderAll(A) + RenderAll(M) + RenderAll(Z))
         == RenderAll(A) + "<ul>" + RenderAll(M) + "</ul>" + RenderAll(Z)
  {
    var sA, sM, sZ := RenderAll(A), RenderAll(M), RenderAll(Z);
    Assoc(sA, sM, sZ);
    SkipPlain(A, sM + sZ);
    WrapFromFirstItem(M, Z);
    InsertAssoc(sA, sM, sZ);
  }

  lemma WrapListsGroupsItems(bs: seq<Block>, f: nat, l: nat)
    requires SafeBlocks(bs) && HasItem(bs) && f == FirstItem(bs) && l == LastItem(bs)
    ensures WrapLists(RenderAll(bs)) == Grouped(bs)
  {
    GroupedAsParts(bs, f, l);
    var A, M, Z := bs[..f], bs[f..l + 1], bs[l + 1..];
    CutAtItems(bs, f, l, A, M, Z);
    SafeCut(bs, f, l, A, M, Z);
    RenderAllThreeParts(bs, f, l);
    WrapThreeParts(A, M, Z);
  }

  lemma SafeCut(bs: seq<Block>, f: nat, l: nat, A: seq<Block>, M: seq<Block>, Z: seq<Block>)
    requires SafeBlocks(bs)
    requires f <= l < |bs| && A == bs[..f] && M == bs[f..l + 1] && Z == bs[l + 1..]
    ensures SafeBlocks(A) && SafeBlocks(M) && SafeBlocks(Z)
  {
    SafeSlice(bs, 0, f);
    SafeSlice(bs, f, l + 1);
    SafeSlice(bs, l + 1, |bs|);
    assert bs[0..f] == A && bs[l + 1..|bs|] == Z;
  }

  /** The grouped markup is the rendered blocks with exactly two insertions:
      `<ul>` before the run from the first list item to the last, whose
      rendering starts with `<li>`, and `</ul>` after it, whose rendering ends
      with `</li>`; everything before and after the run is unchanged. */
  lemma GroupedOnlyInserts(bs: seq<Block>, f: nat, l: nat)
    requires HasItem(bs) && f == FirstItem(bs) && l == LastItem(bs)
    ensures f <= l < |bs|
    ensures Grouped(bs) == RenderAll(bs[..f]) + "<ul>" + RenderAll(bs[f..l + 1]) + "</ul>" + RenderAll(bs[l + 1..])
    ensures RenderAll(bs) == RenderAll(bs[..f]) + RenderAll(bs[f..l + 1]) + RenderAll(bs[l + 1..])
    ensures var sM := RenderAll(bs[f..l + 1]);
            |sM| >= 9 && sM[..|OpenLi|] == OpenLi && sM[|sM| - |CloseLi|..] == CloseLi
  {
    GroupedAsParts(bs, f, l);
    var M := bs[f..l + 1];
    RunEnds(bs, f, l, M);
    RenderAllThreeParts(bs, f, l);
    ItemRunShape(M);
  }

  /** A run that starts and ends with a list item renders as `<li>…</li>`. */
  lemma ItemRunShape(M: seq<Block>)
    requires |M| > 0 && M[0].ListItem? && M[|M| - 1].ListItem?
    ensures |RenderAll(M)| >= 9
    ensures RenderAll(M)[..|OpenLi|] == OpenLi
    ensures RenderAll(M)[|RenderAll(M)| - |CloseLi|..] == CloseLi
  {
    EndsWithClose(M, "");
    StartsWithOpen(M);
  }

  lemma StartsWithOpen(M: seq<Block>)
    requires |M| > 0 && M[0].ListItem?
    ensures |RenderAll(M)| >= 4 && RenderAll(M)[..|OpenLi|] == OpenLi
  {
    var R := Render(M[0]);
    assert RenderAll(M) == R + RenderAll(M[1..]);
    assert R[..4] == OpenLi;
    PrefixOfConcat(R, RenderAll(M[1..]));
  }

  lemma PrefixOfConcat(a: string, b: string)
    requires |a| >= 4
    ensures (a + b)[..4] == a[..4]
  {
  }

  /** `formatNotes(notes)`: one rendered block per `'\n'`-separated line, in
      order, then the list wrap. */
  method FormatNotes(notes: string) returns (formatted: string)
    ensures formatted == WrapLists(RenderAll(Blocks(notes)))
    ensures SafeBlocks(Blocks(notes)) ==> formatted == Grouped(Blocks(notes))
  {
    formatted := "";
    var lines := Split(notes, '\n');
    ghost var bs := Blocks(notes);
    var i := 0;
    while i < |lines|
      invariant 0 <= i <= |lines| == |bs|
      invariant formatted == RenderAll(bs[..i])
    {
      RenderAllSnoc(bs, i);
      formatted := formatted + Render(Classify(lines[i]));
      i := i + 1;
    }
    assert bs[..i] == bs;
    formatted := WrapLists(formatted);
    if SafeBlocks(bs) {
      WrapListsGroups(bs);
    }
  }

  /** A heading between two list items ends up inside the one list. */
  lemma HeadingInsideList(bs: seq<Block>)
    requires bs == [ListItem("a"), Heading("h"), ListItem("b")]
    ensures WrapLists(RenderAll(bs)) == "<ul>" + ("<li>a</li>" + "<h3>h</h3>" + "<li>b</li>") + "</ul>"
  {
    LetterIsSafe("a");
    LetterIsSafe("h");
    LetterIsSafe("b");
    assert SafeBlocks(bs);
    WrapListsGroups(bs);
    assert HasItem(bs) by {
      assert bs[0].ListItem?;
    }
    GroupedAsParts(bs, 0, 2);
    ExampleParts(bs);
    EmptyEnds(RenderAll(bs[..0]), RenderAll(bs[0..3]), RenderAll(bs[3..]));
  }

  lemma EmptyEnds(x: string, r: string, y: string)
    requires x == "" && y == ""
    ensures x + "<ul>" + r + "</ul>" + y == "<ul>" + r + "</ul>"
  {
  }

  lemma LetterIsSafe(t: string)
    requires |t| == 1 && 'a' <= t[0] <= 'z'
    ensures SafeText(t)
  {
  }

  lemma ExampleParts(bs: seq<Block>)
    requires bs == [ListItem("a"), Heading("h"), ListItem("b")]
    ensures RenderAll(bs[..0]) == "" && RenderAll(bs[3..]) == ""
    ensures RenderAll(bs[0..3]) == "<li>a</li>" + "<h3>h</h3>" + "<li>b</li>"
  {
    assert bs[..0] == [] && bs[0..3] == bs && bs[3..] == [];
    assert bs[1..][1..] == [ListItem("b")];
    assert RenderAll([ListItem("b")]) == "<li>b</li>" + "";
  }

  /** Empty notes are one empty line, so they format to one empty paragraph. */
  lemma EmptyNotes()
    ensures WrapLists(RenderAll(Blocks(""))) == "<p></p>"
  {
    var bs := Blocks("");
    assert Split("", '\n') == [""];
    assert bs == [Paragraph("")];
    assert RenderAll(bs) == Render(Paragraph("")) + "";
    PlainBlockCopies(Paragraph(""), "");
  }
}
