/** The per-line half of `formatNotes` (static/script.js:164-182): each line of
    the notes is classified as a heading, a list item or a paragraph, exactly
    as the `if`/`else if` chain inside the `forEach` does, and rendered with
    the tag its branch writes. The classification looks at the line as it is,
    before any trimming. */
module Markup {
  import opened Text

  datatype Block = Heading(text: string) | ListItem(text: string) | Paragraph(text: string)

  predicate IsDigit(c: char)
  {
    '0' <= c <= '9'
  }

  /** `-` or `*`: the characters of the class `[-*]`. */
  predicate IsBulletMarker(c: char)
  {
    c == '-' || c == '*'
  }

  /** `line.startsWith('#')` */
  predicate StartsHeading(line: string)
  {
    |line| > 0 && line[0] == '#'
  }

  /** `line.startsWith('-') || line.startsWith('*')` */
  predicate StartsBullet(line: string)
  {
    |line| > 0 && IsBulletMarker(line[0])
  }

  /** The tail of `/^\d+\./` after its first digit: more digits, then a dot. */
  predicate DigitsThenDot(s: string)
    decreases |s|
  {
    |s| > 0 && (s[0] == '.' || (IsDigit(s[0]) && DigitsThenDot(s[1..])))
  }

  /** `/^\d+\./.test(line)` */
  predicate StartsNumbered(line: string)
  {
    |line| > 0 && IsDigit(line[0]) && DigitsThenDot(line[1..])
  }

  /** The regex test means: one or more digits at the very start, then a dot. */
  lemma {:induction false} StartsNumberedMeaning(line: string)
    ensures StartsNumbered(line) <==>
              exists n {:trigger line[n]} :: 1 <= n < |line| && line[n] == '.' && forall i | 0 <= i < n :: IsDigit(line[i])
    decreases |line|
  {
    if StartsNumbered(line) {
      var n := DotAfterDigits(line[1..]);
      assert line[n + 1] == '.';
    }
    if exists n {:trigger line[n]} :: 1 <= n < |line| && line[n] == '.' && forall i | 0 <= i < n :: IsDigit(line[i]) {
      var n :| 1 <= n < |line| && line[n] == '.' && forall i | 0 <= i < n :: IsDigit(line[i]);
      DigitsReachDot(line[1..], n - 1);
    }
  }

  lemma {:induction false} DotAfterDigits(s: string) returns (n: nat)
    requires DigitsThenDot(s)
    ensures n < |s| && s[n] == '.' && forall i | 0 <= i < n :: IsDigit(s[i])
    decreases |s|
  {
    if s[0] == '.' {
      n := 0;
    } else {
      var m := DotAfterDigits(s[1..]);
      n := m + 1;
    }
  }

  lemma {:induction false} DigitsReachDot(s: string, n: nat)
    requires n < |s| && s[n] == '.' && forall i | 0 <= i < n :: IsDigit(s[i])
    ensures DigitsThenDot(s)
    decreases n
  {
    if n > 0 && s[0] != '.' {
      DigitsReachDot(s[1..], n - 1);
    }
  }

  /** `line.replace(/#/g, '')`: every `#` goes, everything else stays. */
  function RemoveAll(s: string, c: char): (r: string)
    ensures c !in r
    ensures forall x | x != c :: multiset(r)[x] == multiset(s)[x]
    decreases |s|
  {
    if |s| == 0 then ""
    else
      assert s == [s[0]] + s[1..];
      if s[0] == c then RemoveAll(s[1..], c) else [s[0]] + RemoveAll(s[1..], c)
  }

  /** Removal works character by character: a `#` goes, anything else stays. */
  lemma RemoveAllOne(x: char, c: char)
    ensures RemoveAll([x], c) == if x == c then [] else [x]
  {
    assert [x][1..] == [];
  }

  /** Removal from a concatenation is the concatenation of the removals, so
      the characters that stay keep their order. */
  lemma {:induction false} RemoveAllAppend(a: string, b: string, c: char)
    ensures RemoveAll(a + b, c) == RemoveAll(a, c) + RemoveAll(b, c)
    decreases |a|
  {
    if |a| > 0 {
      assert (a + b)[0] == a[0];
      assert (a + b)[1..] == a[1..] + b;
      RemoveAllAppend(a[1..], b, c);
    } else {
      assert a + b == b;
    }
  }

  /** `line.replace(/[-*]/, '')`: only the first `-` or `*` goes. */
  function RemoveFirstMarker(s: string): (r: string)
    ensures (forall i | 0 <= i < |s| :: !IsBulletMarker(s[i])) ==> r == s
    ensures (exists i | 0 <= i < |s| :: IsBulletMarker(s[i])) ==> |r| == |s| - 1
    decreases |s|
  {
    if |s| == 0 then s
    else if IsBulletMarker(s[0]) then s[1..]
    else
      assert forall i | 1 <= i < |s| :: s[i] == s[1..][i - 1];
      [s[0]] + RemoveFirstMarker(s[1..])
  }

  /** The character removed is the first marker, wherever it stands. */
  lemma {:induction false} RemoveFirstMarkerAt(s: string, i: nat)
    requires i < |s| && IsBulletMarker(s[i])
    requires forall j | 0 <= j < i :: !IsBulletMarker(s[j])
    ensures RemoveFirstMarker(s) == s[..i] + s[i + 1..]
    decreases i
  {
    if i > 0 {
      RemoveFirstMarkerAt(s[1..], i - 1);
      assert s[..i] == [s[0]] + s[1..][..i - 1];
      assert s[i + 1..] == s[1..][i..];
    }
  }

  /** One turn of the `forEach` at static/script.js:168-178, before the tags. */
  function Classify(line: string): (b: Block)
    ensures b.Heading? <==> StartsHeading(line)
    ensures b.ListItem? <==> !StartsHeading(line) && (StartsBullet(line) || StartsNumbered(line))
    ensures Trimmed(b.text)
    ensures b.Heading? ==> '#' !in b.text && b.text == Trim(RemoveAll(line, '#'))
    ensures b.ListItem? && StartsBullet(line) ==> b.text == Trim(line[1..])
    ensures b.ListItem? && !StartsBullet(line) ==> b.text == Trim(line) && StartsNumbered(b.text)
    ensures b.Paragraph? ==> b.text == Trim(line)
  {
    if StartsHeading(line) then
      var t := Trim(RemoveAll(line, '#'));
      TrimIsSlice(RemoveAll(line, '#'));
      assert forall x | x in t :: x in RemoveAll(line, '#');
      Heading(t)
    else if StartsBullet(line) then
      RemoveFirstMarkerAt(line, 0);
      ListItem(Trim(RemoveFirstMarker(line)))
    else if StartsNumbered(line) then
      NumberSurvivesTrim(line);
      ListItem(Trim(line))
    else Paragraph(Trim(line))
  }

  /** Trimming a numbered line keeps its number and dot. */
  lemma NumberSurvivesTrim(line: string)
    requires StartsNumbered(line)
    ensures StartsNumbered(Trim(line))
  {
    StartsNumberedMeaning(line);
    var n :| 1 <= n < |line| && line[n] == '.' && forall i | 0 <= i < n :: IsDigit(line[i]);
    assert TrimStart(line) == line;
    var t := Trim(line);
    assert t == TrimEnd(line);
    TrimEndIsPrefix(line);
    assert !IsJsSpace(line[n]);
    assert n < |t|;
    assert t[n] == '.' && forall i | 0 <= i < n :: IsDigit(t[i]);
    StartsNumberedMeaning(t);
  }

  /** The template literal each branch appends. */
  function Render(b: Block): string
  {
    match b
    case Heading(t) => "<h3>" + t + "</h3>"
    case ListItem(t) => "<li>" + t + "</li>"
    case Paragraph(t) => "<p>" + t + "</p>"
  }

  function Opening(b: Block): string
  {
    match b
    case Heading(_) => "<h3>"
    case ListItem(_) => "<li>"
    case Paragraph(_) => "<p>"
  }

  function Closing(b: Block): string
  {
    match b
    case Heading(_) => "</h3>"
    case ListItem(_) => "</li>"
    case Paragraph(_) => "</p>"
  }

  lemma RenderShape(b: Block)
    ensures Render(b) == Opening(b) + b.text + Closing(b)
    ensures |Opening(b)| >= 3 && Opening(b)[0] == '<' && '<' !in Opening(b)[1..]
    ensures |Closing(b)| >= 4 && Closing(b)[0] == '<' && Closing(b)[1] == '/' && '<' !in Closing(b)[1..]
    ensures NoLineTerminator(Opening(b)) && NoLineTerminator(Closing(b))
    ensures b.ListItem? <==> Opening(b)[1] == 'l'
    ensures b.ListItem? <==> Closing(b)[2] == 'l'
    ensures b.Heading? <==> Opening(b)[1] == 'h'
    ensures b.Paragraph? <==> Opening(b)[1] == 'p'
    ensures Closing(b)[2] == Opening(b)[1]
  {
    assert "<h3>"[1..] == "h3>" && "</h3>"[1..] == "/h3>";
    assert "<li>"[1..] == "li>" && "</li>"[1..] == "/li>";
    assert "<p>"[1..] == "p>" && "</p>"[1..] == "/p>";
  }

  function RenderAll(bs: seq<Block>): string
  {
    if |bs| == 0 then "" else Render(bs[0]) + RenderAll(bs[1..])
  }

  lemma {:induction false} RenderAllAppend(a: seq<Block>, b: seq<Block>)
    ensures RenderAll(a + b) == RenderAll(a) + RenderAll(b)
    decreases |a|
  {
    if |a| > 0 {
      assert (a + b)[1..] == a[1..] + b;
      RenderAllAppend(a[1..], b);
    } else {
      assert a + b == b;
    }
  }

  /** The lines of the notes, `notes.split('\n')`, classified one by one. */
  function Blocks(notes: string): (bs: seq<Block>)
    ensures |bs| == |Split(notes, '\n')| == multiset(notes)['\n'] + 1
    ensures forall i | 0 <= i < |bs| :: bs[i] == Classify(Split(notes, '\n')[i])
  {
    SplitCount(notes, '\n');
    var lines := Split(notes, '\n');
    seq(|lines|, i requires 0 <= i < |lines| => Classify(lines[i]))
  }

  lemma TrimIndentedBullet()
    ensures Trim("  - x") == "- x"
  {
    assert TrimStart("  - x") == TrimStart(" - x") == TrimStart("- x") == "- x";
  }

  /** Classification looks at the untrimmed line: an indented marker makes a
      paragraph, whose text is the trimmed line. */
  lemma IndentedBulletIsParagraph()
    ensures Classify("  - x") == Paragraph("- x")
  {
    assert Classify("  - x").Paragraph?;
    TrimIndentedBullet();
  }

  lemma TrimAfterMarker()
    ensures Trim("1.") == "1."
  {
    assert TrimStart("1.") == "1.";
  }

  /** The bullet test comes before the number test: `-1.` is a bullet whose
      text is `1.`. */
  lemma BulletBeforeNumber()
    ensures Classify("-1.") == ListItem("1.")
  {
    assert Classify("-1.").ListItem?;
    assert "-1."[1..] == "1.";
    TrimAfterMarker();
  }

  lemma HashesRemoved()
    ensures RemoveAll("# A #B#", '#') == " A B"
  {
    assert RemoveAll("#", '#') == "";
    assert RemoveAll("B#", '#') == "B";
    assert RemoveAll("#B#", '#') == "B";
    assert RemoveAll(" #B#", '#') == " B";
    assert RemoveAll("A #B#", '#') == "A B";
    assert RemoveAll(" A #B#", '#') == " A B";
  }

  lemma TrimStartHeadingText()
    ensures TrimStart(" A B") == "A B"
  {
    assert " A B"[1..] == "A B";
    assert TrimStart("A B") == "A B";
  }

  lemma TrimHeadingText()
    ensures Trim(" A B") == "A B"
  {
    TrimStartHeadingText();
    assert TrimEnd("A B") == "A B";
  }

  /** Every `#` of a heading line goes, not only the leading ones. */
  lemma HeadingDropsEveryHash()
    ensures Classify("# A #B#") == Heading("A B")
  {
    HashesRemoved();
    TrimHeadingText();
  }
}
