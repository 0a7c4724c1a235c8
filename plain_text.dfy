/** The plain-text conversion of `copyFormattedNotes` (static/script.js:137-141):
    five global `replace` passes, applied in this order:
      `<h3>(.*?)</h3>` becomes `\n$1\n`, `<ul>` becomes `\n`, `</ul>` becomes
      `\n`, `<li>(.*?)</li>` becomes `  • $1\n`, `<p>(.*?)</p>` becomes `$1\n`.
    A tagged pass uses lazy `.*?`, so each match ends at the first closing tag
    reachable without crossing a line terminator.

    Its partner is the rendering of `formatNotes`: on rendered markup whose
    block texts hold no `<` and no line terminator, the conversion turns every
    block into its own plain line and every list container into a line break. */
module PlainText {
  import opened Wrappers
  import opened Text
  import opened Patterns
  import opened Markup
  import opened NotesFormat

  /** One `replace` call of the chain. */
  datatype Pass =
    | TagPass(open: string, close: string, pre: string, post: string)  // `/<open>(.*?)<close>/g` to `pre$1post`
    | LiteralPass(pat: string, rep: string)                             // `/<pat>/g` to `rep`

  const Bullet := "  \U{2022} "

  /** The chain, in the order the calls are written. */
  const Passes: seq<Pass> := [
    TagPass("<h3>", "</h3>", "\n", "\n"),
    LiteralPass("<ul>", "\n"),
    LiteralPass("</ul>", "\n"),
    TagPass("<li>", "</li>", Bullet, "\n"),
    TagPass("<p>", "</p>", "", "\n")
  ]

  /** `s.replace(/<open>(.*?)<close>/g, pre + '$1' + post)` */
  function ReplaceTagged(s: string, open: string, close: string, pre: string, post: string): string
    requires |open| > 0 && |close| > 0
    decreases |s|
  {
    if |s| == 0 then ""
    else if open <= s && FirstClose(s[|open|..], close).Some? then
      var q := FirstClose(s[|open|..], close).value;
      pre + s[|open|..|open| + q] + post + ReplaceTagged(s[|open| + q + |close|..], open, close, pre, post)
    else [s[0]] + ReplaceTagged(s[1..], open, close, pre, post)
  }

  /** `s.replace(/<pat>/g, rep)` for a pattern without special characters. */
  function ReplaceLiteral(s: string, pat: string, rep: string): string
    requires |pat| > 0
    decreases |s|
  {
    if |s| == 0 then ""
    else if pat <= s then rep + ReplaceLiteral(s[|pat|..], pat, rep)
    else [s[0]] + ReplaceLiteral(s[1..], pat, rep)
  }

  predicate WellFormed(p: Pass)
  {
    match p
    case TagPass(open, close, _, _) => |open| > 0 && |close| > 0
    case LiteralPass(pat, _) => |pat| > 0
  }

  function Apply(p: Pass, s: string): string
    requires WellFormed(p)
  {
    match p
    case TagPass(open, close, pre, post) => ReplaceTagged(s, open, close, pre, post)
    case LiteralPass(pat, rep) => ReplaceLiteral(s, pat, rep)
  }

  function ApplyAll(ps: seq<Pass>, s: string): string
    requires forall i | 0 <= i < |ps| :: WellFormed(ps[i])
  {
    if |ps| == 0 then s else ApplyAll(ps[1..], Apply(ps[0], s))
  }

  /** The string `copyFormattedNotes` puts on the clipboard for `notes`. */
  function ToPlainText(notes: string): string
  {
    ApplyAll(Passes, notes)
  }

  /** The pattern a pass looks for first. */
  function Start(p: Pass): string
  {
    match p
    case TagPass(open, _, _, _) => open
    case LiteralPass(pat, _) => pat
  }

  // ---------------------------------------------------------------------------
  // One step of each pass

  lemma TaggedCopy(s: string, open: string, close: string, pre: string, post: string)
    requires |open| > 0 && |close| > 0 && |s| > 0 && !(open <= s)
    ensures ReplaceTagged(s, open, close, pre, post) == [s[0]] + ReplaceTagged(s[1..], open, close, pre, post)
  {
  }

  lemma TaggedMatch(s: string, open: string, close: string, pre: string, post: string, q: nat)
    requires |open| > 0 && |close| > 0 && open <= s && FirstClose(s[|open|..], close) == Some(q)
    ensures |open| + q + |close| <= |s|
    ensures ReplaceTagged(s, open, close, pre, post)
         == pre + s[|open|..|open| + q] + post + ReplaceTagged(s[|open| + q + |close|..], open, close, pre, post)
  {
  }

  lemma LiteralCopy(s: string, pat: string, rep: string)
    requires |pat| > 0 && |s| > 0 && !(pat <= s)
    ensures ReplaceLiteral(s, pat, rep) == [s[0]] + ReplaceLiteral(s[1..], pat, rep)
  {
  }

  lemma LiteralMatch(s: string, pat: string, rep: string)
    requires |pat| > 0 && pat <= s
    ensures ReplaceLiteral(s, pat, rep) == rep + ReplaceLiteral(s[|pat|..], pat, rep)
  {
  }

  /** A pass copies text in which its pattern does not start. */
  lemma {:induction false} CopyThrough(p: Pass, x: string, rest: string)
    requires WellFormed(p)
    requires forall k | 0 <= k < |x| :: !(Start(p) <= x[k..] + rest)
    ensures Apply(p, x + rest) == x + Apply(p, rest)
    decreases |x|
  {
    if |x| == 0 {
      assert x + rest == rest;
    } else {
      var s := x + rest;
      assert s[1..] == x[1..] + rest;
      assert x[0..] == x;
      match p {
        case TagPass(open, close, pre, post) => TaggedCopy(s, open, close, pre, post);
        case LiteralPass(pat, rep) => LiteralCopy(s, pat, rep);
      }
      forall k | 0 <= k < |x| - 1 ensures !(Start(p) <= x[1..][k..] + rest) {
        assert x[1..][k..] == x[k + 1..];
      }
      CopyThrough(p, x[1..], rest);
      Assoc([x[0]], x[1..], Apply(p, rest));
      assert [x[0]] + x[1..] == x;
    }
  }

  /** A pass whose pattern starts with `<` leaves text without `<` alone. */
  lemma NoAngleUnchanged(p: Pass, s: string)
    requires WellFormed(p) && Start(p)[0] == '<' && '<' !in s
    ensures Apply(p, s) == s
  {
    forall k | 0 <= k < |s| ensures !(Start(p) <= s[k..] + "") {
      assert (s[k..] + "")[0] == s[k];
    }
    CopyThrough(p, s, "");
    assert s + "" == s;
    match p
    case TagPass(_, _, _, _) => assert Apply(p, "") == "";
    case LiteralPass(_, _) => assert Apply(p, "") == "";
  }

  lemma PassesWellFormed()
    ensures forall i | 0 <= i < |Passes| :: WellFormed(Passes[i]) && Start(Passes[i])[0] == '<'
  {
  }

  lemma {:induction false} ApplyAllNoAngle(ps: seq<Pass>, s: string)
    requires forall i | 0 <= i < |ps| :: WellFormed(ps[i]) && Start(ps[i])[0] == '<'
    requires '<' !in s
    ensures ApplyAll(ps, s) == s
    decreases |ps|
  {
    if |ps| > 0 {
      NoAngleUnchanged(ps[0], s);
      ApplyAllNoAngle(ps[1..], s);
    }
  }

  /** Text without `<`, such as notes in their raw form, is copied as it is. */
  lemma PlainTextIdentity(notes: string)
    requires '<' !in notes
    ensures ToPlainText(notes) == notes
  {
    PassesWellFormed();
    ApplyAllNoAngle(Passes, notes);
  }

  // ---------------------------------------------------------------------------
  // Rendered markup as a sequence of segments

  /** A piece of rendered markup: text, a rendered block, or a list tag. */
  datatype Seg = Literal(s: string) | Element(b: Block) | ListStart | ListEnd

  function SegString(g: Seg): string
  {
    match g
    case Literal(s) => s
    case Element(b) => Render(b)
    case ListStart => "<ul>"
    case ListEnd => "</ul>"
  }

  function Flat(gs: seq<Seg>): string
  {
    if |gs| == 0 then "" else SegString(gs[0]) + Flat(gs[1..])
  }

  /** Block text the conversion can find its way through. */
  predicate CleanText(t: string)
  {
    '<' !in t && NoLineTerminator(t)
  }

  predicate CleanSeg(g: Seg)
  {
    match g
    case Literal(s) => '<' !in s
    case Element(b) => CleanText(b.text)
    case _ => true
  }

  predicate CleanSegs(gs: seq<Seg>)
  {
    forall i | 0 <= i < |gs| :: CleanSeg(gs[i])
  }

  /** The passes of the chain: a tag pass for one of the three block tags, or a
      literal pass for one of the two list tags, with replacements free of `<`. */
  predicate ChainPass(p: Pass)
  {
    match p
    case TagPass(open, close, pre, post) =>
      && ((open == "<h3>" && close == "</h3>") || (open == "<li>" && close == "</li>") || (open == "<p>" && close == "</p>"))
      && '<' !in pre && '<' !in post
    case LiteralPass(pat, rep) => (pat == "<ul>" || pat == "</ul>") && '<' !in rep
  }

  /** What a pass does to one segment. */
  function Step(p: Pass, g: Seg): Seg
  {
    match p
    case TagPass(open, _, pre, post) =>
      if g.Element? && Opening(g.b) == open then Literal(pre + g.b.text + post) else g
    case LiteralPass(pat, rep) =>
      if (g.ListStart? || g.ListEnd?) && SegString(g) == pat then Literal(rep) else g
  }

  function StepAll(p: Pass, gs: seq<Seg>): (r: seq<Seg>)
    ensures |r| == |gs| && forall i | 0 <= i < |gs| :: r[i] == Step(p, gs[i])
  {
    seq(|gs|, i requires 0 <= i < |gs| => Step(p, gs[i]))
  }

  lemma NoAngleFree(x: string, t: string)
    requires |x| > 0 && x[0] == '<' && '<' !in t
    ensures Free(x, t)
  {
    forall i | 0 <= i <= |t| ensures !(x <= t[i..]) {
      if i < |t| {
        assert t[i..][0] == t[i];
      }
    }
  }

  /** In a rendered block with clean text, a pattern that starts with `<` and
      has no other `<` can start only where a tag starts. */
  lemma ElementOnlyAtTags(b: Block, rest: string, x: string)
    requires CleanText(b.text)
    requires |x| > 0 && x[0] == '<' && '<' !in x[1..]
    requires !(x <= Render(b) + rest)
    requires !(x <= Closing(b) + rest)
    ensures forall k | 0 <= k < |Render(b)| :: !(x <= Render(b)[k..] + rest)
  {
    RenderShape(b);
    var O, t, C := Opening(b), b.text, Closing(b);
    NoAngleFree(x, t);
    forall k | 0 <= k < |Render(b)| ensures !(x <= Render(b)[k..] + rest) {
      if k == |O| + |t| {
        assert Render(b)[k..] == C;
      } else if k != 0 {
        NotAtNonTag(O, t, C, rest, x, k);
      }
    }
  }

  /** Segments that are plain text pass through unchanged. */
  lemma LiteralSegPass(p: Pass, s: string, rest: string)
    requires ChainPass(p) && '<' !in s
    ensures WellFormed(p)
    ensures Apply(p, s + rest) == s + Apply(p, rest)
  {
    forall k | 0 <= k < |s| ensures !(Start(p) <= s[k..] + rest) {
      assert (s[k..] + rest)[0] == s[k];
    }
    CopyThrough(p, s, rest);
  }

  /** A rendered block that the pass does not target passes through unchanged. */
  lemma ElementSegCopy(p: Pass, b: Block, rest: string)
    requires ChainPass(p) && CleanText(b.text)
    requires !(p.TagPass? && Opening(b) == p.open)
    ensures WellFormed(p)
    ensures Apply(p, Render(b) + rest) == Render(b) + Apply(p, rest)
  {
    RenderShape(b);
    var x := Start(p);
    assert "<h3>"[1..] == "h3>" && "<li>"[1..] == "li>" && "<p>"[1..] == "p>";
    assert "<ul>"[1..] == "ul>" && "</ul>"[1..] == "/ul>";
    assert (Render(b) + rest)[1] == Opening(b)[1];
    assert (Closing(b) + rest)[1] == '/' && (Closing(b) + rest)[2] == Opening(b)[1];
    ElementOnlyAtTags(b, rest, x);
    CopyThrough(p, Render(b), rest);
  }

  /** The lazy match for a block's own tag stops at the block's closing tag. */
  lemma ElementFirstClose(b: Block, rest: string)
    requires CleanText(b.text)
    ensures FirstClose((Render(b) + rest)[|Opening(b)|..], Closing(b)) == Some(|b.text|)
  {
    RenderShape(b);
    var O, t, C := Opening(b), b.text, Closing(b);
    var u := (Render(b) + rest)[|O|..];
    assert u == t + (C + rest);
    assert u[..|t|] == t;
    assert u[|t|..] == C + rest;
    forall q | 0 <= q < |t| ensures !(C <= u[q..]) {
      assert u[q..][0] == t[q];
    }
    FirstCloseIs(u, C, |t|);
  }

  /** A rendered block that the pass targets becomes `pre + text + post`. */
  lemma ElementSegMatch(p: Pass, b: Block, rest: string)
    requires ChainPass(p) && CleanText(b.text)
    requires p.TagPass? && Opening(b) == p.open
    ensures WellFormed(p) && Closing(b) == p.close
    ensures Apply(p, Render(b) + rest) == p.pre + b.text + p.post + Apply(p, rest)
  {
    RenderShape(b);
    var O, t, C := Opening(b), b.text, Closing(b);
    var s := Render(b) + rest;
    ElementFirstClose(b, rest);
    assert O <= s;
    TaggedMatch(s, p.open, p.close, p.pre, p.post, |t|);
    assert s[|O|..|O| + |t|] == t;
    assert s[|O| + |t| + |C|..] == rest;
  }

  /** A list tag under a pass. */
  lemma ListSegPass(p: Pass, g: Seg, rest: string)
    requires ChainPass(p) && (g.ListStart? || g.ListEnd?)
    ensures WellFormed(p)
    ensures Apply(p, SegString(g) + rest) == SegString(Step(p, g)) + Apply(p, rest)
  {
    var x := Start(p);
    var T := SegString(g);
    assert "<ul>"[1..] == "ul>" && "</ul>"[1..] == "/ul>";
    assert (T + rest)[0] == '<' && '<' !in T[1..];
    if p.LiteralPass? && T == p.pat {
      LiteralMatch(T + rest, p.pat, p.rep);
      assert (T + rest)[|T|..] == rest;
    } else {
      assert (T + rest)[1] == T[1];
      forall k | 0 <= k < |T| ensures !(x <= T[k..] + rest) {
        if k > 0 {
          assert (T[k..] + rest)[0] == T[1..][k - 1];
        }
      }
      CopyThrough(p, T, rest);
    }
  }

  /** One segment under one pass. */
  lemma SegPass(p: Pass, g: Seg, rest: string)
    requires ChainPass(p) && CleanSeg(g)
    ensures WellFormed(p)
    ensures Apply(p, SegString(g) + rest) == SegString(Step(p, g)) + Apply(p, rest)
    ensures CleanSeg(Step(p, g))
  {
    match g
    case Literal(s) =>
      LiteralSegPass(p, s, rest);
    case Element(b) =>
      if p.TagPass? && Opening(b) == p.open {
        ElementSegMatch(p, b, rest);
        Assoc(p.pre + b.text + p.post, "", "");
        assert '<' !in p.pre + b.text + p.post;
      } else {
        ElementSegCopy(p, b, rest);
      }
    case ListStart =>
      ListSegPass(p, g, rest);
    case ListEnd =>
      ListSegPass(p, g, rest);
  }

  /** A pass acts on rendered markup segment by segment. */
  lemma {:induction false} FlatPass(p: Pass, gs: seq<Seg>)
    requires ChainPass(p) && CleanSegs(gs)
    ensures WellFormed(p)
    ensures Apply(p, Flat(gs)) == Flat(StepAll(p, gs))
    ensures CleanSegs(StepAll(p, gs))
    decreases |gs|
  {
    if |gs| == 0 {
      match p
      case TagPass(_, _, _, _) => assert Apply(p, "") == "";
      case LiteralPass(_, _) => assert Apply(p, "") == "";
    } else {
      SegPass(p, gs[0], Flat(gs[1..]));
      FlatPass(p, gs[1..]);
      var r := StepAll(p, gs);
      assert r[1..] == StepAll(p, gs[1..]);
    }
  }

  /** Where a segment ends up after all passes of `ps`. */
  function StepThrough(ps: seq<Pass>, g: Seg): Seg
  {
    if |ps| == 0 then g else StepThrough(ps[1..], Step(ps[0], g))
  }

  function StepThroughAll(ps: seq<Pass>, gs: seq<Seg>): (r: seq<Seg>)
    ensures |r| == |gs| && forall i | 0 <= i < |gs| :: r[i] == StepThrough(ps, gs[i])
  {
    seq(|gs|, i requires 0 <= i < |gs| => StepThrough(ps, gs[i]))
  }

  /** A chain of passes acts on rendered markup segment by segment. */
  lemma {:induction false} FlatPasses(ps: seq<Pass>, gs: seq<Seg>)
    requires forall i | 0 <= i < |ps| :: ChainPass(ps[i])
    requires CleanSegs(gs)
    ensures forall i | 0 <= i < |ps| :: WellFormed(ps[i])
    ensures ApplyAll(ps, Flat(gs)) == Flat(StepThroughAll(ps, gs))
    decreases |ps|
  {
    if |ps| == 0 {
      assert StepThroughAll(ps, gs) == gs;
    } else {
      FlatPass(ps[0], gs);
      assert forall i | 0 <= i < |ps| :: WellFormed(ps[i]) by {
        forall i | 0 <= i < |ps| ensures WellFormed(ps[i]) {
          FlatPass(ps[i], []);
        }
      }
      var next := StepAll(ps[0], gs);
      FlatPasses(ps[1..], next);
      assert StepThroughAll(ps[1..], next) == StepThroughAll(ps, gs);
    }
  }

  /** The line a segment becomes on the clipboard. */
  function PlainSeg(g: Seg): string
  {
    match g
    case Literal(s) => s
    case Element(Heading(t)) => "\n" + t + "\n"
    case Element(ListItem(t)) => Bullet + t + "\n"
    case Element(Paragraph(t)) => t + "\n"
    case ListStart => "\n"
    case ListEnd => "\n"
  }

  function PlainFlat(gs: seq<Seg>): string
  {
    if |gs| == 0 then "" else PlainSeg(gs[0]) + PlainFlat(gs[1..])
  }

  lemma ChainPasses()
    ensures forall i | 0 <= i < |Passes| :: ChainPass(Passes[i])
  {
    assert "\n"[0] != '<';
    assert Bullet == [' ', ' ', '\U{2022}', ' '];
  }

  /** Each segment, through the whole chain, becomes a plain segment. */
  lemma SegThroughPasses(g: Seg)
    ensures StepThrough(Passes, g) == Literal(PlainSeg(g))
  {
    var p1, p2, p3, p4, p5 := Passes[0], Passes[1], Passes[2], Passes[3], Passes[4];
    assert Passes[1..] == [p2, p3, p4, p5];
    assert [p2, p3, p4, p5][1..] == [p3, p4, p5];
    assert [p3, p4, p5][1..] == [p4, p5];
    assert [p4, p5][1..] == [p5];
    assert [p5][1..] == [];
    var g1 := Step(p1, g);
    var g2 := Step(p2, g1);
    var g3 := Step(p3, g2);
    var g4 := Step(p4, g3);
    assert StepThrough([p5], g4) == Step(p5, g4);
    assert StepThrough([p4, p5], g3) == StepThrough([p5], g4);
    assert StepThrough([p3, p4, p5], g2) == StepThrough([p4, p5], g3);
    assert StepThrough([p2, p3, p4, p5], g1) == StepThrough([p3, p4, p5], g2);
    assert StepThrough(Passes, g) == StepThrough([p2, p3, p4, p5], g1);
    match g {
      case Literal(s) =>
      case Element(b) =>
        match b {
          case Heading(t) =>
          case ListItem(t) =>
          case Paragraph(t) => assert "" + t + "\n" == t + "\n";
        }
      case ListStart =>
      case ListEnd =>
    }
  }

  lemma {:induction false} FlatOfPlain(gs: seq<Seg>)
    ensures Flat(StepThroughAll(Passes, gs)) == PlainFlat(gs)
    decreases |gs|
  {
    if |gs| > 0 {
      SegThroughPasses(gs[0]);
      FlatOfPlain(gs[1..]);
      assert StepThroughAll(Passes, gs)[1..] == StepThroughAll(Passes, gs[1..]);
    }
  }

  /** The conversion of clean rendered markup, segment by segment. */
  lemma PlainTextOfSegments(gs: seq<Seg>)
    requires CleanSegs(gs)
    ensures ToPlainText(Flat(gs)) == PlainFlat(gs)
  {
    ChainPasses();
    FlatPasses(Passes, gs);
    FlatOfPlain(gs);
  }

  // ---------------------------------------------------------------------------
  // The conversion against the rendering of `formatNotes`

  function Elements(bs: seq<Block>): (gs: seq<Seg>)
    ensures |gs| == |bs| && forall i | 0 <= i < |bs| :: gs[i] == Element(bs[i])
  {
    seq(|bs|, i requires 0 <= i < |bs| => Element(bs[i]))
  }

  /** The clipboard text of one block. */
  function PlainBlock(b: Block): string
  {
    PlainSeg(Element(b))
  }

  function PlainAll(bs: seq<Block>): string
  {
    if |bs| == 0 then "" else PlainBlock(bs[0]) + PlainAll(bs[1..])
  }

  predicate CleanBlocks(bs: seq<Block>)
  {
    forall i | 0 <= i < |bs| :: CleanText(bs[i].text)
  }

  lemma {:induction false} ElementsFlat(bs: seq<Block>)
    ensures Flat(Elements(bs)) == RenderAll(bs)
    ensures PlainFlat(Elements(bs)) == PlainAll(bs)
    decreases |bs|
  {
    if |bs| > 0 {
      ElementsFlat(bs[1..]);
      assert Elements(bs)[1..] == Elements(bs[1..]);
    }
  }

  /** Converting rendered blocks gives each block's own line: headings set
      off by line breaks, list items behind a bullet, paragraphs as they are. */
  lemma PlainTextOfRendered(bs: seq<Block>)
    requires CleanBlocks(bs)
    ensures ToPlainText(RenderAll(bs)) == PlainAll(bs)
  {
    ElementsFlat(bs);
    PlainTextOfSegments(Elements(bs));
  }

  lemma {:induction false} FlatAppend(a: seq<Seg>, b: seq<Seg>)
    ensures Flat(a + b) == Flat(a) + Flat(b)
    decreases |a|
  {
    if |a| == 0 {
      assert a + b == b;
    } else {
      assert (a + b)[1..] == a[1..] + b;
      FlatAppend(a[1..], b);
      Assoc(SegString(a[0]), Flat(a[1..]), Flat(b));
    }
  }

  lemma {:induction false} PlainFlatAppend(a: seq<Seg>, b: seq<Seg>)
    ensures PlainFlat(a + b) == PlainFlat(a) + PlainFlat(b)
    decreases |a|
  {
    if |a| == 0 {
      assert a + b == b;
    } else {
      assert (a + b)[1..] == a[1..] + b;
      PlainFlatAppend(a[1..], b);
      Assoc(PlainSeg(a[0]), PlainFlat(a[1..]), PlainFlat(b));
    }
  }

  lemma FlatSingle(g: Seg)
    ensures Flat([g]) == SegString(g) && PlainFlat([g]) == PlainSeg(g)
  {
    assert [g][1..] == [];
    assert SegString(g) + "" == SegString(g);
    assert PlainSeg(g) + "" == PlainSeg(g);
  }

  /** A list container among segments renders as `<ul>` ... `</ul>`. */
  lemma ListFlat(A: seq<Seg>, M: seq<Seg>, Z: seq<Seg>)
    ensures Flat(A + [ListStart] + M + [ListEnd] + Z) == Flat(A) + "<ul>" + Flat(M) + "</ul>" + Flat(Z)
  {
    var X := A + [ListStart];
    var Y := X + M;
    var W := Y + [ListEnd];
    FlatSingle(ListStart);
    FlatSingle(ListEnd);
    FlatAppend(A, [ListStart]);
    FlatAppend(X, M);
    FlatAppend(Y, [ListEnd]);
    FlatAppend(W, Z);
  }

  /** ... and converts to a line break on each side. */
  lemma ListPlainFlat(A: seq<Seg>, M: seq<Seg>, Z: seq<Seg>)
    ensures PlainFlat(A + [ListStart] + M + [ListEnd] + Z) == PlainFlat(A) + "\n" + PlainFlat(M) + "\n" + PlainFlat(Z)
  {
    var X := A + [ListStart];
    var Y := X + M;
    var W := Y + [ListEnd];
    FlatSingle(ListStart);
    FlatSingle(ListEnd);
    PlainFlatAppend(A, [ListStart]);
    PlainFlatAppend(X, M);
    PlainFlatAppend(Y, [ListEnd]);
    PlainFlatAppend(W, Z);
  }

  /** The grouped markup of `formatNotes` as segments. */
  lemma GroupedSegments(bs: seq<Block>, f: nat, l: nat, gs: seq<Seg>)
    requires HasItem(bs) && f == FirstItem(bs) && l == LastItem(bs)
    requires f <= l < |bs|
    requires gs == Elements(bs[..f]) + [ListStart] + Elements(bs[f..l + 1]) + [ListEnd] + Elements(bs[l + 1..])
    ensures Flat(gs) == Grouped(bs)
    ensures PlainFlat(gs) == PlainAll(bs[..f]) + "\n" + PlainAll(bs[f..l + 1]) + "\n" + PlainAll(bs[l + 1..])
  {
    GroupedAsParts(bs, f, l);
    var A, M, Z := Elements(bs[..f]), Elements(bs[f..l + 1]), Elements(bs[l + 1..]);
    ElementsFlat(bs[..f]);
    ElementsFlat(bs[f..l + 1]);
    ElementsFlat(bs[l + 1..]);
    ListFlat(A, M, Z);
    ListPlainFlat(A, M, Z);
  }

  lemma CleanSegsOfGrouping(bs: seq<Block>, f: nat, l: nat)
    requires CleanBlocks(bs) && f <= l < |bs|
    ensures CleanSegs(Elements(bs[..f]) + [ListStart] + Elements(bs[f..l + 1]) + [ListEnd] + Elements(bs[l + 1..]))
  {
    var gs := Elements(bs[..f]) + [ListStart] + Elements(bs[f..l + 1]) + [ListEnd] + Elements(bs[l + 1..]);
    forall i | 0 <= i < |gs| ensures CleanSeg(gs[i]) {
      if i < f {
        assert gs[i] == Element(bs[i]);
      } else if f < i <= l + 1 {
        assert gs[i] == Element(bs[i - 1]);
      } else if l + 2 < i {
        assert gs[i] == Element(bs[i - 2]);
      }
    }
  }

  /** Converting the grouped markup unwraps the list: `<ul>` and `</ul>` each
      become a line break around the list items' bullet lines. */
  lemma PlainTextOfGrouped(bs: seq<Block>, f: nat, l: nat)
    requires CleanBlocks(bs) && HasItem(bs) && f == FirstItem(bs) && l == LastItem(bs)
    ensures ToPlainText(Grouped(bs))
         == PlainAll(bs[..f]) + "\n" + PlainAll(bs[f..l + 1]) + "\n" + PlainAll(bs[l + 1..])
  {
    GroupedAsParts(bs, f, l);
    var gs := Elements(bs[..f]) + [ListStart] + Elements(bs[f..l + 1]) + [ListEnd] + Elements(bs[l + 1..]);
    GroupedSegments(bs, f, l, gs);
    CleanSegsOfGrouping(bs, f, l);
    PlainTextOfSegments(gs);
  }

  function Texts(bs: seq<Block>): (ts: seq<string>)
    ensures |ts| == |bs| && forall i | 0 <= i < |bs| :: ts[i] == bs[i].text
  {
    seq(|bs|, i requires 0 <= i < |bs| => bs[i].text)
  }

  lemma {:induction false} ParagraphLines(bs: seq<Block>)
    requires forall i | 0 <= i < |bs| :: bs[i].Paragraph?
    ensures PlainAll(bs) == Join(Texts(bs) + [""], '\n')
    decreases |bs|
  {
    if |bs| > 0 {
      ParagraphLines(bs[1..]);
      var ts := Texts(bs) + [""];
      assert ts[1..] == Texts(bs[1..]) + [""];
      assert Join(ts, '\n') == bs[0].text + ['\n'] + Join(ts[1..], '\n');
      Assoc(bs[0].text, "\n", Join(ts[1..], '\n'));
    } else {
      assert Texts(bs) + [""] == [""];
    }
  }

  lemma LinesOfCleanTexts(bs: seq<Block>, ts: seq<string>)
    requires CleanBlocks(bs) && ts == Texts(bs) + [""]
    ensures forall i | 0 <= i < |ts| :: '\n' !in ts[i]
  {
    forall i | 0 <= i < |ts| ensures '\n' !in ts[i] {
      if i < |bs| {
        assert CleanText(bs[i].text);
      }
    }
  }

  /** Rendered paragraphs convert back to their texts, one per line, in order. */
  lemma ParagraphsOnTheirOwnLines(bs: seq<Block>)
    requires CleanBlocks(bs) && forall i | 0 <= i < |bs| :: bs[i].Paragraph?
    ensures Split(ToPlainText(RenderAll(bs)), '\n') == Texts(bs) + [""]
  {
    PlainTextOfRendered(bs);
    ParagraphLines(bs);
    LinesOfCleanTexts(bs, Texts(bs) + [""]);
    SplitJoin(Texts(bs) + [""], '\n');
  }
}
