/** backend/utils.py: the whitespace normaliser `clean_text` and the
    word-window chunker `chunk_text`. */
module Utils {
  import opened Text

  // ------------------------------------------------------------ clean_text

  /** Every whitespace character of `r` is a plain space. */
  predicate OnlyBlanks(r: string) {
    forall i :: 0 <= i < |r| && IsSpace(r[i]) ==> r[i] == ' '
  }

  /** No two neighbouring characters of `r` are both whitespace. */
  predicate NoDoubleSpace(r: string) {
    forall i :: 0 <= i < |r| - 1 ==> !(IsSpace(r[i]) && IsSpace(r[i + 1]))
  }

  /** The shape `clean_text` produces: words separated by single spaces,
      nothing before the first word or after the last. */
  predicate Normalized(r: string) {
    && (|r| == 0 || (!IsSpace(r[0]) && !IsSpace(r[|r| - 1])))
    && NoDoubleSpace(r)
    && OnlyBlanks(r)
  }

  /** `re.sub(r'\s+', ' ', s)` scanned from the left; `inRun` says that the
      character before `s` was whitespace, already replaced by a space. */
  function CollapseFrom(s: string, inRun: bool): (r: string)
    ensures inRun ==> |r| == 0 || !IsSpace(r[0])
    ensures !inRun ==> (StartsWord(r) <==> StartsWord(s))
    ensures NoDoubleSpace(r) && OnlyBlanks(r)
  {
    if |s| == 0 then ""
    else if IsSpace(s[0]) then (if inRun then "" else " ") + CollapseFrom(s[1..], true)
    else [s[0]] + CollapseFrom(s[1..], false)
  }

  /** `re.sub(r'\s+', ' ', s)`: every run of whitespace becomes one space. */
  function Collapse(s: string): string {
    CollapseFrom(s, false)
  }

  lemma SliceKeepsBlanks(x: string, a: nat, b: nat)
    requires a <= b <= |x| && NoDoubleSpace(x) && OnlyBlanks(x)
    ensures NoDoubleSpace(x[a..b]) && OnlyBlanks(x[a..b])
  {
    assert forall i :: 0 <= i < b - a ==> x[a..b][i] == x[a + i];
  }

  /** Stripping a string with only single spaces leaves it normalized. */
  lemma StripNormalizes(c: string)
    requires NoDoubleSpace(c) && OnlyBlanks(c)
    ensures Normalized(Strip(c))
  {
    var l := StripLeading(c);
    SliceKeepsBlanks(c, |c| - |l|, |c|);
    var r := StripTrailing(l);
    SliceKeepsBlanks(l, 0, |r|);
    assert |r| > 0 ==> r[0] == l[0];
  }

  /** `clean_text(text)`: collapse whitespace runs, then strip both ends. */
  function CleanText(text: string): (r: string)
    ensures Normalized(r)
  {
    var c := Collapse(text);
    StripNormalizes(c);
    Strip(c)
  }

  /** Collapsing keeps the words. */
  lemma {:induction false} WordsOfCollapseFrom(s: string, inRun: bool)
    ensures Words(CollapseFrom(s, inRun)) == Words(s)
  {
    if |s| > 0 {
      if IsSpace(s[0]) {
        var tail := CollapseFrom(s[1..], true);
        WordsOfCollapseFrom(s[1..], true);
        if !inRun {
          assert CollapseFrom(s, inRun) == [' '] + tail;
          WordsAfterSpace(' ', tail);
        } else {
          assert CollapseFrom(s, inRun) == tail;
        }
      } else {
        var tail := CollapseFrom(s[1..], false);
        WordsOfCollapseFrom(s[1..], false);
        assert ([s[0]] + tail)[1..] == tail;
      }
    }
  }

  lemma {:induction false} WordsOfStripLeading(s: string)
    ensures Words(StripLeading(s)) == Words(s)
  {
    if |s| > 0 && IsSpace(s[0]) {
      WordsOfStripLeading(s[1..]);
    }
  }

  /** A trailing whitespace character does not change the words. */
  lemma {:induction false} WordsBeforeSpace(x: string, c: char)
    requires IsSpace(c)
    ensures Words(x + [c]) == Words(x)
  {
    if |x| == 0 {
      assert [c][1..] == [];
    } else {
      assert (x + [c])[1..] == x[1..] + [c];
      WordsBeforeSpace(x[1..], c);
    }
  }

  lemma {:induction false} WordsOfStripTrailing(s: string)
    ensures Words(StripTrailing(s)) == Words(s)
    decreases |s|
  {
    if |s| > 0 && IsSpace(s[|s| - 1]) {
      var init := s[..|s| - 1];
      assert s == init + [s[|s| - 1]];
      WordsBeforeSpace(init, s[|s| - 1]);
      WordsOfStripTrailing(init);
    }
  }

  /** `clean_text(t).split() == t.split()`. */
  lemma CleanTextKeepsWords(text: string)
    ensures Words(CleanText(text)) == Words(text)
  {
    var c := Collapse(text);
    WordsOfCollapseFrom(text, false);
    WordsOfStripLeading(c);
    WordsOfStripTrailing(StripLeading(c));
  }

  /** Collapsing changes nothing in a string that has only single spaces. */
  lemma {:induction false} CollapseFromFixed(r: string, inRun: bool)
    requires NoDoubleSpace(r) && OnlyBlanks(r)
    requires inRun ==> |r| == 0 || !IsSpace(r[0])
    ensures CollapseFrom(r, inRun) == r
  {
    if |r| > 0 {
      SliceKeepsBlanks(r, 1, |r|);
      if IsSpace(r[0]) {
        assert r[0] == ' ';
        assert |r| > 1 ==> !IsSpace(r[1..][0]);
        CollapseFromFixed(r[1..], true);
      } else {
        CollapseFromFixed(r[1..], false);
      }
      assert [r[0]] + r[1..] == r;
    }
  }

  /** `clean_text` leaves exactly the normalized strings unchanged. */
  lemma CleanTextFixedPoints(r: string)
    ensures CleanText(r) == r <==> Normalized(r)
  {
    if Normalized(r) {
      CollapseFromFixed(r, false);
    }
  }

  /** `clean_text` is idempotent. */
  lemma CleanTextIdempotent(text: string)
    ensures CleanText(CleanText(text)) == CleanText(text)
  {
    CleanTextFixedPoints(CleanText(text));
  }

  // ------------------------------------------------------------ chunk_text

  /** The advance `max(1, chunk_size - overlap)`. */
  function Step(chunkSize: int, overlap: int): (s: nat)
    ensures s >= 1
  {
    Max(1, chunkSize - overlap)
  }

  /** ceil(n / d). */
  function CeilDiv(n: nat, d: nat): nat
    requires d >= 1
  {
    (n + d - 1) / d
  }

  /** Window j of the word list: `words[j*step : j*step + chunk_size]`. */
  function Window(words: seq<string>, j: nat, chunkSize: int, overlap: int): seq<string> {
    var start := j * Step(chunkSize, overlap);
    PySlice(words, start, start + chunkSize)
  }

  lemma MulMono(a: nat, b: nat, s: nat)
    requires a <= b
    ensures a * s <= b * s
  {
  }

  /** k = ceil(n / s) is the least k with k * s >= n. */
  lemma CeilDivBounds(n: nat, s: nat)
    requires s >= 1
    ensures CeilDiv(n, s) * s >= n
    ensures CeilDiv(n, s) == 0 <==> n == 0
    ensures CeilDiv(n, s) > 0 ==> (CeilDiv(n, s) - 1) * s < n
  {
    var a := n + s - 1;
    var q, r := a / s, a % s;
    assert a == q * s + r && 0 <= r < s;
    if n == 0 {
      assert q * s < s;
      if q > 0 { MulMono(1, q, s); }
    } else {
      assert q * s > 0;
    }
    assert (q - 1) * s == q * s - s;
  }

  /** The number of loop rounds: the k with (k - 1) * s < n <= k * s. */
  lemma RoundsAreCeilDiv(n: nat, s: nat, k: nat)
    requires s >= 1 && k * s >= n && (k == 0 || (k - 1) * s < n)
    ensures k == CeilDiv(n, s)
  {
    var c := CeilDiv(n, s);
    CeilDivBounds(n, s);
    if k < c {
      MulMono(k, c - 1, s);
    } else if k > c {
      MulMono(c, k - 1, s);
    }
  }

  /** `chunk_text(text, chunk_size, overlap)`. */
  method ChunkText(text: string, chunkSize: int, overlap: int) returns (chunks: seq<string>)
    ensures |chunks| == CeilDiv(|Words(text)|, Step(chunkSize, overlap))
    ensures forall j :: 0 <= j < |chunks| ==>
              chunks[j] == Join(Window(Words(text), j, chunkSize, overlap))
    ensures chunks == [] <==> Words(text) == []
  {
    var words := Words(text);
    chunks := [];
    var start := 0;
    ghost var step := Step(chunkSize, overlap);
    while start < |words|
      invariant start == |chunks| * step
      invariant |chunks| == 0 || (|chunks| - 1) * step < |words|
      invariant forall j :: 0 <= j < |chunks| ==> chunks[j] == Join(Window(words, j, chunkSize, overlap))
      decreases |words| - start
    {
      var end := start + chunkSize;
      var chunk := Join(PySlice(words, start, end));
      assert chunk == Join(Window(words, |chunks|, chunkSize, overlap));
      ghost var prev := chunks;
      chunks := chunks + [chunk];
      assert forall j :: 0 <= j < |prev| ==> chunks[j] == prev[j];
      start := start + Max(1, chunkSize - overlap);
      assert start == |chunks| * step by {
        assert (|chunks| - 1) * step + step == |chunks| * step;
      }
    }
    RoundsAreCeilDiv(|words|, step, |chunks|);
    CeilDivBounds(|words|, step);
  }

  /** With chunk_size >= 1 every window that `chunk_text` emits is a
      contiguous run of 1 to chunk_size words. */
  lemma WindowShape(words: seq<string>, j: nat, chunkSize: int, overlap: int)
    requires chunkSize >= 1
    requires j < CeilDiv(|words|, Step(chunkSize, overlap))
    ensures var start := j * Step(chunkSize, overlap);
            && start < |words|
            && Window(words, j, chunkSize, overlap) == words[start..Min(start + chunkSize, |words|)]
            && 1 <= |Window(words, j, chunkSize, overlap)| <= chunkSize
  {
    var s := Step(chunkSize, overlap);
    CeilDivBounds(|words|, s);
    MulMono(j, CeilDiv(|words|, s) - 1, s);
  }

  /** Each chunk is a non-empty string of at most chunk_size words, and
      splitting it gives back its window (for `words` = `text.split()`). */
  lemma ChunkIsWindow(words: seq<string>, j: nat, chunkSize: int, overlap: int)
    requires chunkSize >= 1
    requires forall i :: 0 <= i < |words| ==> IsWord(words[i])
    requires j < CeilDiv(|words|, Step(chunkSize, overlap))
    ensures var w := Window(words, j, chunkSize, overlap);
            && Words(Join(w)) == w
            && Join(w) != ""
            && 1 <= |Words(Join(w))| <= chunkSize
  {
    WindowShape(words, j, chunkSize, overlap);
    var w := Window(words, j, chunkSize, overlap);
    SliceOfWords(words, j * Step(chunkSize, overlap), Min(j * Step(chunkSize, overlap) + chunkSize, |words|));
    WordsOfJoin(w);
  }

  lemma SliceOfWords(words: seq<string>, a: nat, b: nat)
    requires a <= b <= |words|
    requires forall i :: 0 <= i < |words| ==> IsWord(words[i])
    ensures forall i :: 0 <= i < b - a ==> IsWord(words[a..b][i])
  {
    assert forall i :: 0 <= i < b - a ==> words[a..b][i] == words[a + i];
  }

  /** Overlap removal: the first `step` words of every chunk but the last,
      then the whole last chunk. */
  function Rebuild(ws: seq<seq<string>>, step: nat): seq<string> {
    if |ws| == 0 then []
    else if |ws| == 1 then ws[0]
    else PySlice(ws[0], 0, step) + Rebuild(ws[1..], step)
  }

  /** One step of `RebuildWindows`: a window followed by the rebuilt rest. */
  lemma RebuildStep(words: seq<string>, ws: seq<seq<string>>, i: nat, s: nat, a: nat, e: nat)
    requires i + 1 < |ws| && a + s <= e <= |words|
    requires ws[i] == words[a..e]
    requires Rebuild(ws[i + 1..], s) == words[a + s..]
    ensures Rebuild(ws[i..], s) == words[a..]
  {
    assert ws[i..][1..] == ws[i + 1..];
    PrefixOfSlice(words, a, e, s);
    SplitSuffix(words, a, a + s);
  }

  /** Where window i of `chunk_text` starts and ends, and how it meets the next one. */
  lemma WindowBounds(words: seq<string>, ws: seq<seq<string>>, chunkSize: int, overlap: int, i: nat)
    requires 0 <= overlap < chunkSize
    requires |ws| == CeilDiv(|words|, Step(chunkSize, overlap))
    requires forall j :: 0 <= j < |ws| ==> ws[j] == Window(words, j, chunkSize, overlap)
    requires i < |ws|
    ensures var s, a := Step(chunkSize, overlap), i * Step(chunkSize, overlap);
            var e := Min(a + chunkSize, |words|);
            && 0 <= a <= e <= |words| && ws[i] == words[a..e]
            && (i + 1) * s == a + s
            && (i + 1 < |ws| ==> a + s <= e)
            && (i + 1 == |ws| ==> e == |words|)
  {
    var s, n := Step(chunkSize, overlap), |words|;
    WindowShape(words, i, chunkSize, overlap);
    NextWindowStart(n, s, i);
  }

  lemma {:induction false} RebuildWindows(words: seq<string>, ws: seq<seq<string>>, chunkSize: int, overlap: int, i: nat)
    requires 0 <= overlap < chunkSize
    requires |ws| == CeilDiv(|words|, Step(chunkSize, overlap))
    requires forall j :: 0 <= j < |ws| ==> ws[j] == Window(words, j, chunkSize, overlap)
    requires i < |ws|
    ensures i * Step(chunkSize, overlap) <= |words|
    ensures Rebuild(ws[i..], Step(chunkSize, overlap)) == words[i * Step(chunkSize, overlap)..]
    decreases |ws| - i
  {
    var s := Step(chunkSize, overlap);
    var a := i * s;
    var e := Min(a + chunkSize, |words|);
    WindowBounds(words, ws, chunkSize, overlap, i);
    if i == |ws| - 1 {
      assert ws[i..] == [ws[i]];
    } else {
      RebuildWindows(words, ws, chunkSize, overlap, i + 1);
      RebuildStep(words, ws, i, s, a, e);
    }
  }



  lemma PrefixOfSlice(xs: seq<string>, a: nat, e: nat, s: nat)
    requires a + s <= e <= |xs|
    ensures PySlice(xs[a..e], 0, s) == xs[a..a + s]
  {
  }

  lemma SplitSuffix(xs: seq<string>, a: nat, b: nat)
    requires a <= b <= |xs|
    ensures xs[a..] == xs[a..b] + xs[b..]
  {
  }

  /** Where the window after window i starts, and whether it exists. */
  lemma NextWindowStart(n: nat, s: nat, i: nat)
    requires s >= 1 && i < CeilDiv(n, s)
    ensures 0 <= i * s && (i + 1) * s == i * s + s
    ensures i + 1 < CeilDiv(n, s) ==> (i + 1) * s < n
    ensures i + 1 == CeilDiv(n, s) ==> n <= (i + 1) * s
  {
    CeilDivBounds(n, s);
    MulMono(0, i, s);
    if i + 1 < CeilDiv(n, s) {
      MulMono(i + 1, CeilDiv(n, s) - 1, s);
    }
  }

  /** For 0 <= overlap < chunk_size, removing the overlap from the chunks
      that `chunk_text` returns gives back `text.split()` exactly. */
  lemma ChunksReassemble(text: string, chunkSize: int, overlap: int, chunks: seq<string>)
    requires 0 <= overlap < chunkSize
    requires |chunks| == CeilDiv(|Words(text)|, Step(chunkSize, overlap))
    requires forall j :: 0 <= j < |chunks| ==>
               chunks[j] == Join(Window(Words(text), j, chunkSize, overlap))
    ensures Rebuild(seq(|chunks|, j requires 0 <= j < |chunks| => Words(chunks[j])),
                    chunkSize - overlap) == Words(text)
  {
    var words := Words(text);
    var ws := seq(|chunks|, j requires 0 <= j < |chunks| => Words(chunks[j]));
    forall j | 0 <= j < |ws|
      ensures ws[j] == Window(words, j, chunkSize, overlap)
    {
      ChunkIsWindow(words, j, chunkSize, overlap);
    }
    if |ws| == 0 {
      CeilDivBounds(|words|, Step(chunkSize, overlap));
    } else {
      RebuildWindows(words, ws, chunkSize, overlap, 0);
      assert ws[0..] == ws;
    }
  }
}
