/** The partition loop of `split_audio` (audio_processing.py:5-16): the decoded
    audio is cut into consecutive windows of `chunk_length_ms` milliseconds,
    `audio[i:i + chunk_length_ms]` for `i` in `range(0, len(audio), chunk_length_ms)`,
    and window number `i // chunk_length_ms` is exported to
    `upload_folder/chunk_<n>.m4a`. The audio is a sequence with one element per
    millisecond, which is how pydub's `len` and slicing count it (pydub itself
    rounds a millisecond to whole frames, which is not modelled); the export
    records which window went to which path. */
module AudioChunks {
  import opened Text

  /** `Config.CHUNK_LENGTH_MS`: ten minutes. */
  const ChunkLengthMs: nat := 600000

  /** The windows of `audio`: `L` milliseconds each, the last one possibly
      shorter. */
  function Windows<T>(audio: seq<T>, L: nat): seq<seq<T>>
    requires L > 0
    decreases |audio|
  {
    if |audio| == 0 then []
    else if |audio| <= L then [audio]
    else [audio[..L]] + Windows(audio[L..], L)
  }

  /** The number of windows `range(0, n, L)` yields: `ceil(n / L)`. */
  function WindowCount(n: nat, L: nat): nat
    requires L > 0
  {
    (n + L - 1) / L
  }

  function Concat<T>(parts: seq<seq<T>>): seq<T>
  {
    if |parts| == 0 then [] else parts[0] + Concat(parts[1..])
  }

  /** `os.path.join(folder, name)` for a relative `name`. */
  function PathJoin(folder: string, name: string): string
  {
    if |folder| == 0 || folder[|folder| - 1] == '/' then folder + name else folder + "/" + name
  }

  /** The path window `k` is exported to. */
  function ChunkPath(folder: string, k: nat): string
  {
    PathJoin(folder, "chunk_" + NatToString(k) + ".m4a")
  }

  function ChunkPaths(folder: string, n: nat): (paths: seq<string>)
    ensures |paths| == n && forall k | 0 <= k < n :: paths[k] == ChunkPath(folder, k)
  {
    seq(n, k requires 0 <= k < n => ChunkPath(folder, k))
  }

  /** How the windows of `audio` start: the first one, then the windows of the rest. */
  lemma WindowsStep<T>(audio: seq<T>, L: nat)
    requires L > 0 && |audio| > 0
    ensures var m := if |audio| < L then |audio| else L;
            Windows(audio, L) == [audio[..m]] + (if |audio| <= L then [] else Windows(audio[L..], L))
  {
    if |audio| <= L {
      assert audio[..|audio|] == audio;
    }
  }

  /** `split_audio` (audio_processing.py:5-16): the windows of `audio` and
      the paths they were exported to, in the order of the loop. */
  method SplitAudio<T>(audio: seq<T>, L: nat, folder: string) returns (paths: seq<string>, exported: seq<seq<T>>)
    requires L > 0
    ensures exported == Windows(audio, L)
    ensures paths == ChunkPaths(folder, |exported|)
  {
    paths, exported := [], [];
    var i := 0;
    while i < |audio|
      invariant i == |exported| * L
      invariant i < |audio| ==> exported + Windows(audio[i..], L) == Windows(audio, L)
      invariant i >= |audio| ==> exported == Windows(audio, L)
      invariant paths == ChunkPaths(folder, |exported|)
      decreases |audio| - i
    {
      var end := if i + L < |audio| then i + L else |audio|;
      var chunk := audio[i..end];
      var k := i / L;
      NextMultiple(|exported|, L);
      ChunkPathsSnoc(folder, |exported|);
      paths := paths + [ChunkPath(folder, k)];
      SplitStep(audio, L, i, exported, chunk);
      exported := exported + [chunk];
      i := i + L;
    }
    if |audio| == 0 {
      assert Windows(audio, L) == [];
    }
  }

  /** One turn of the loop of `SplitAudio`: the window cut at `i` is the next one. */
  lemma SplitStep<T>(audio: seq<T>, L: nat, i: nat, exported: seq<seq<T>>, chunk: seq<T>)
    requires L > 0 && i < |audio|
    requires exported + Windows(audio[i..], L) == Windows(audio, L)
    requires chunk == audio[i..if i + L < |audio| then i + L else |audio|]
    ensures i + L < |audio| ==> exported + [chunk] + Windows(audio[i + L..], L) == Windows(audio, L)
    ensures i + L >= |audio| ==> exported + [chunk] == Windows(audio, L)
  {
    WindowsStep(audio[i..], L);
    if i + L < |audio| {
      assert audio[i..][L..] == audio[i + L..];
      assert audio[i..][..L] == chunk;
      assert exported + ([chunk] + Windows(audio[i + L..], L)) == exported + [chunk] + Windows(audio[i + L..], L);
    } else {
      assert audio[i..][..|audio| - i] == chunk;
    }
  }

  /** The loop counter after `n` turns is `n * L`, and `i // L` is `n`. */
  lemma NextMultiple(n: nat, L: nat)
    requires L > 0
    ensures (n * L) / L == n && n * L + L == (n + 1) * L
  {
    DivOfMultiple(n, L);
  }

  lemma ChunkPathsSnoc(folder: string, n: nat)
    ensures ChunkPaths(folder, n + 1) == ChunkPaths(folder, n) + [ChunkPath(folder, n)]
  {
  }

  lemma DivOfMultiple(k: nat, L: nat)
    requires L > 0
    ensures (k * L) / L == k
  {
    DivUnique(k * L, L, k, 0);
  }

  lemma {:induction false} AtLeastOnce(d: int, L: nat)
    requires d >= 1
    ensures d * L >= L
    decreases d
  {
    if d > 1 {
      AtLeastOnce(d - 1, L);
      assert d * L == (d - 1) * L + L;
    }
  }

  /** Floor division is determined by quotient and remainder. */
  lemma DivUnique(x: int, L: nat, q: int, r: int)
    requires L > 0 && x == q * L + r && 0 <= r < L
    ensures x / L == q
  {
    var q', r' := x / L, x % L;
    assert x == q' * L + r';
    assert (q - q') * L == r' - r;
    if q > q' {
      AtLeastOnce(q - q', L);
    } else if q < q' {
      AtLeastOnce(q' - q, L);
    }
  }

  // ---------------------------------------------------------------------------
  // What the windows are

  /** Empty audio has no windows. */
  lemma NoAudioNoChunks<T>(audio: seq<T>, L: nat)
    requires L > 0 && |audio| == 0
    ensures Windows(audio, L) == []
  {
  }

  /** Window `k` covers `audio[k*L .. min(k*L + L, |audio|)]`. */
  lemma {:induction false} WindowAt<T>(audio: seq<T>, L: nat, k: nat)
    requires L > 0 && k < |Windows(audio, L)|
    ensures k * L < |audio|
    ensures var hi := if k * L + L < |audio| then k * L + L else |audio|;
            Windows(audio, L)[k] == audio[k * L..hi]
    decreases k
  {
    if k > 0 {
      assert |audio| > L;
      WindowAt(audio[L..], L, k - 1);
      assert (k - 1) * L + L == k * L;
      assert audio[L..][(k - 1) * L..] == audio[k * L..];
    } else if |audio| > L {
      assert k * L == 0;
    }
  }

  /** There are `ceil(|audio| / L)` windows. */
  lemma {:induction false} WindowsCount<T>(audio: seq<T>, L: nat)
    requires L > 0
    ensures |Windows(audio, L)| == WindowCount(|audio|, L)
    decreases |audio|
  {
    if |audio| == 0 {
      DivBetween(L - 1, L, 0);
    } else if |audio| <= L {
      DivBetween(|audio| + L - 1, L, 1);
    } else {
      WindowsCount(audio[L..], L);
      var n := |audio| - L;
      DivShift(n + L - 1, L);
    }
  }

  lemma DivBetween(x: nat, L: nat, q: nat)
    requires L > 0 && q * L <= x < q * L + L
    ensures x / L == q
  {
    DivUnique(x, L, q, x - q * L);
  }

  lemma DivShift(x: nat, L: nat)
    requires L > 0
    ensures (x + L) / L == x / L + 1
  {
    var q := x / L;
    assert x == q * L + x % L;
    assert (q + 1) * L == q * L + L;
    DivUnique(x + L, L, q + 1, x % L);
  }

  /** The windows, put back together in order, give the audio: no millisecond
      is lost, repeated or moved. */
  lemma {:induction false} WindowsConcat<T>(audio: seq<T>, L: nat)
    requires L > 0
    ensures Concat(Windows(audio, L)) == audio
    decreases |audio|
  {
    if |audio| > L {
      WindowsConcat(audio[L..], L);
      var ws := Windows(audio, L);
      assert ws[1..] == Windows(audio[L..], L);
      assert audio[..L] + audio[L..] == audio;
    } else if |audio| > 0 {
      assert Concat([audio]) == audio + [];
    }
  }

  /** Every window but the last is exactly `L` long; the last is not empty. */
  lemma {:induction false} WindowLengths<T>(audio: seq<T>, L: nat)
    requires L > 0
    ensures forall k | 0 <= k < |Windows(audio, L)| - 1 :: |Windows(audio, L)[k]| == L
    ensures |Windows(audio, L)| > 0 ==> 0 < |Windows(audio, L)[|Windows(audio, L)| - 1]| <= L
    decreases |audio|
  {
    if |audio| > L {
      WindowLengths(audio[L..], L);
      var ws := Windows(audio, L);
      assert ws[1..] == Windows(audio[L..], L);
      forall k | 1 <= k < |ws| - 1 ensures |ws[k]| == L {
        assert ws[k] == ws[1..][k - 1];
      }
    }
  }

  lemma PathJoinInjective(folder: string, a: string, b: string)
    requires PathJoin(folder, a) == PathJoin(folder, b)
    ensures a == b
  {
    var p := PathJoin(folder, a);
    var pre := if |folder| == 0 || folder[|folder| - 1] == '/' then folder else folder + "/";
    assert PathJoin(folder, a) == pre + a && PathJoin(folder, b) == pre + b;
    assert a == p[|pre|..] == b;
  }

  /** Different windows go to different files. */
  lemma ChunkPathsDistinct(folder: string, j: nat, k: nat)
    requires ChunkPath(folder, j) == ChunkPath(folder, k)
    ensures j == k
  {
    var a, b := NatToString(j), NatToString(k);
    PathJoinInjective(folder, "chunk_" + a + ".m4a", "chunk_" + b + ".m4a");
    var x, y := "chunk_" + a + ".m4a", "chunk_" + b + ".m4a";
    assert |a| == |b| by {
      assert |x| == 10 + |a| && |y| == 10 + |b|;
    }
    assert a == x[6..6 + |a|] == b;
    NatToStringInjective(j, k);
  }

  /** An hour of audio makes six ten-minute windows, and a minute more makes
      a seventh. */
  lemma HourOfAudio()
    ensures WindowCount(3600000, ChunkLengthMs) == 6
    ensures WindowCount(3660000, ChunkLengthMs) == 7
  {
  }

  /** The path of window 3 in folder `/uploads`. */
  lemma ThirdChunkPath()
    ensures ChunkPath("/uploads", 3) == "/uploads/chunk_3.m4a"
  {
  }
}
