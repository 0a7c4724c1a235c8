/** The two ways the modelled regular expressions find the end of a match:
    `.*<close>` (greedy) ends at the LAST `close` reachable without crossing a
    line terminator, `.*?<close>` (lazy) at the FIRST one. Both are stated for
    the text that follows the opening literal. */
module Patterns {
  import opened Wrappers
  import opened Text

  /** How the suffixes and prefixes of `t` relate to those of `t[1..]`. */
  lemma ShiftByOne(t: string)
    requires |t| > 0
    ensures forall q | 1 <= q <= |t| :: t[q..] == t[1..][q - 1..]
    ensures forall q | 1 <= q <= |t| ::
              NoLineTerminator(t[..q]) <==> !IsLineTerminator(t[0]) && NoLineTerminator(t[1..][..q - 1])
  {
    forall q | 1 <= q <= |t|
      ensures NoLineTerminator(t[..q]) <==> !IsLineTerminator(t[0]) && NoLineTerminator(t[1..][..q - 1])
    {
      assert t[..q] == [t[0]] + t[1..][..q - 1];
    }
  }

  /** Where greedy `.*` followed by the literal `close` stops in `t`: the
      largest `q` such that `close` starts at `q` and `t[..q]` holds no line
      terminator (`LastCloseSpec`). */
  function LastClose(t: string, close: string): (r: Option<nat>)
    requires |close| > 0
    ensures r.Some? ==> r.value + |close| <= |t|
    decreases |t|
  {
    if |t| == 0 then None
    else
      var later := if IsLineTerminator(t[0]) then None else LastClose(t[1..], close);
      if later.Some? then Some(later.value + 1)
      else if close <= t then Some(0) else None
  }

  lemma {:induction false} LastCloseSpec(t: string, close: string)
    requires |close| > 0
    ensures var r := LastClose(t, close);
            && (r.Some? ==> close <= t[r.value..] && NoLineTerminator(t[..r.value]))
            && (r.Some? ==> forall q | r.value < q <= |t| && NoLineTerminator(t[..q]) :: !(close <= t[q..]))
            && (r.None? ==> forall q | 0 <= q <= |t| && NoLineTerminator(t[..q]) :: !(close <= t[q..]))
    decreases |t|
  {
    if |t| > 0 {
      ShiftByOne(t);
      if !IsLineTerminator(t[0]) {
        LastCloseSpec(t[1..], close);
      }
    }
  }

  /** A `close` that starts at `P`, is reachable, and has no `close` after it
      is where the greedy match stops. */
  lemma LastCloseIs(t: string, close: string, P: nat)
    requires |close| > 0 && P <= |t| && close <= t[P..] && NoLineTerminator(t[..P])
    requires forall q | P < q <= |t| :: !(close <= t[q..])
    ensures LastClose(t, close) == Some(P)
  {
    LastCloseSpec(t, close);
  }

  /** Where lazy `.*?` followed by the literal `close` stops in `t`: the
      smallest `q` such that `close` starts at `q` and `t[..q]` holds no line
      terminator (`FirstCloseSpec`). */
  function FirstClose(t: string, close: string): (r: Option<nat>)
    requires |close| > 0
    ensures r.Some? ==> r.value + |close| <= |t|
    decreases |t|
  {
    if close <= t then Some(0)
    else if |t| == 0 then None
    else if IsLineTerminator(t[0]) then None
    else
      var later := FirstClose(t[1..], close);
      if later.Some? then Some(later.value + 1) else None
  }

  lemma {:induction false} FirstCloseSpec(t: string, close: string)
    requires |close| > 0
    ensures var r := FirstClose(t, close);
            && (r.Some? ==> close <= t[r.value..] && NoLineTerminator(t[..r.value]))
            && (r.Some? ==> forall q | 0 <= q < r.value :: !(close <= t[q..]))
            && (r.None? ==> forall q | 0 <= q <= |t| && NoLineTerminator(t[..q]) :: !(close <= t[q..]))
    decreases |t|
  {
    if !(close <= t) && |t| > 0 {
      ShiftByOne(t);
      if !IsLineTerminator(t[0]) {
        FirstCloseSpec(t[1..], close);
      }
    }
  }

  /** A `close` that starts at `P`, is reachable, and has no `close` before
      it is where the lazy match stops. */
  lemma FirstCloseIs(t: string, close: string, P: nat)
    requires |close| > 0 && P <= |t| && close <= t[P..] && NoLineTerminator(t[..P])
    requires forall q | 0 <= q < P :: !(close <= t[q..])
    ensures FirstClose(t, close) == Some(P)
  {
    FirstCloseSpec(t, close);
  }

  /** A pattern whose only `<` is its first character does not start inside
      `O + c + C` (whatever follows) anywhere but where `O` or `C` starts, when
      `O` and `C` also carry their only `<` first and `c` does not contain the
      pattern. */
  lemma NotAtNonTag(O: string, c: string, C: string, rest: string, p: string, k: nat)
    requires |O| > 0 && O[0] == '<' && '<' !in O[1..]
    requires |C| > 0 && C[0] == '<' && '<' !in C[1..]
    requires |p| > 0 && p[0] == '<' && '<' !in p[1..]
    requires Free(p, c)
    requires k < |O| + |c| + |C| && k != 0 && k != |O| + |c|
    ensures !(p <= (O + c + C)[k..] + rest)
  {
    var R := O + c + C;
    var T := R[k..] + rest;
    assert T[0] == R[k];
    if k < |O| {
      assert R[k] == O[1..][k - 1];
    } else if k < |O| + |c| {
      var j := k - |O|;
      if j + |p| <= |c| {
        assert T[..|p|] == c[j..][..|p|];
      } else {
        var m := |c| - j;
        assert T[m] == C[0];
        assert p[m] == p[1..][m - 1];
      }
    } else {
      assert R[k] == C[1..][k - |O| - |c| - 1];
    }
  }
}
