/** How the server combines the transcriptions of the chunks of one recording
    (routes.py:30, 52, 106): `" ".join(...)` over the chunks, in chunk order.
    The transcription of a single chunk is a foreign service and arrives here
    as a string. */
module Transcripts {
  import opened Wrappers
  import opened Text

  /** `" ".join(parts)` */
  function JoinWords(parts: seq<string>): (r: string)
    ensures |parts| == 0 ==> r == ""
    ensures |parts| == 1 ==> r == parts[0]
  {
    Join(parts, ' ')
  }

  /** The combined transcription starts with the first chunk's text, and a single
      space separates it from the rest. */
  lemma JoinWordsCons(first: string, rest: seq<string>)
    requires |rest| > 0
    ensures JoinWords([first] + rest) == first + " " + JoinWords(rest)
  {
    assert ([first] + rest)[1..] == rest;
  }

  /** Chunk texts without spaces are recovered, in order, by splitting on single
      spaces: the join neither drops, merges nor reorders chunks. */
  lemma JoinWordsSplit(parts: seq<string>)
    requires |parts| >= 1
    requires forall i | 0 <= i < |parts| :: ' ' !in parts[i]
    ensures Split(JoinWords(parts), ' ') == parts
  {
    SplitJoin(parts, ' ');
  }

  /** There is one space more in the combined transcription than in the chunk
      texts together for every chunk after the first. */
  lemma {:induction false} JoinWordsSpaces(parts: seq<string>)
    requires |parts| >= 1
    ensures multiset(JoinWords(parts))[' '] == SpacesIn(parts) + |parts| - 1
    decreases |parts|
  {
    if |parts| > 1 {
      JoinWordsCons(parts[0], parts[1..]);
      assert [parts[0]] + parts[1..] == parts;
      JoinWordsSpaces(parts[1..]);
      var r := JoinWords(parts[1..]);
      assert multiset(parts[0] + " " + r) == multiset(parts[0]) + multiset(" ") + multiset(r);
    }
  }

  function SpacesIn(parts: seq<string>): nat
  {
    if |parts| == 0 then 0 else multiset(parts[0])[' '] + SpacesIn(parts[1..])
  }
}
