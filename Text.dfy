/**
 * The JavaScript string operations the two screens rely on: `trim()`,
 * `split` on a run of delimiters (`/[.!?]+/`, `/\s+/`), `join`, `indexOf`,
 * `includes`, `replace` with a string pattern, and `length` (UTF-16 code units).
 */
module Text {
  import opened Seqs

  /** The characters JavaScript's `trim()` removes and `\s` matches: WhiteSpace and LineTerminator. */
  predicate IsSpace(c: char) {
    || c == '\t' || c == '\n' || c == '\U{B}' || c == '\U{C}' || c == '\r' || c == ' '
    || c == '\U{A0}' || c == '\U{1680}' || ('\U{2000}' <= c <= '\U{200A}')
    || c == '\U{2028}' || c == '\U{2029}' || c == '\U{202F}' || c == '\U{205F}'
    || c == '\U{3000}' || c == '\U{FEFF}'
  }

  /** The sentence terminators of the pattern `/[.!?]+/`. */
  predicate IsTerminator(c: char) {
    c == '.' || c == '!' || c == '?'
  }

  /** A character that is neither white space nor a sentence terminator. */
  predicate Letter(c: char) {
    !IsSpace(c) && !IsTerminator(c)
  }

  /** The delimiters strings are split on: white space (`/\s+/`) or sentence terminators (`/[.!?]+/`). */
  datatype Delim = Space | Terminator

  predicate IsDelim(delim: Delim, c: char) {
    match delim
    case Space => IsSpace(c)
    case Terminator => IsTerminator(c)
  }

  predicate AllSpace(s: string) {
    forall k :: 0 <= k < |s| ==> IsSpace(s[k])
  }

  /** `p` contains no delimiter character. */
  predicate NoDelim(p: string, delim: Delim) {
    forall k :: 0 <= k < |p| ==> !IsDelim(delim, p[k])
  }

  // ---------------------------------------------------------------- trim

  /** Drops the leading run of delimiters (see DropLeadingSuffix for what it leaves). */
  function DropLeading(s: string, delim: Delim): (r: string)
    ensures |r| <= |s|
    ensures r == [] || !IsDelim(delim, r[0])
    ensures s != [] && IsDelim(delim, s[0]) ==> |r| < |s|
  {
    if s != [] && IsDelim(delim, s[0]) then DropLeading(s[1..], delim) else s
  }

  /** What DropLeading leaves is a suffix, and what it drops are delimiters. */
  lemma {:induction false} DropLeadingSuffix(s: string, delim: Delim)
    ensures DropLeading(s, delim) == s[|s| - |DropLeading(s, delim)|..]
    ensures forall k :: 0 <= k < |s| - |DropLeading(s, delim)| ==> IsDelim(delim, s[k])
    decreases |s|
  {
    if s != [] && IsDelim(delim, s[0]) {
      DropLeadingSuffix(s[1..], delim);
      forall k | 0 < k < |s| - |DropLeading(s, delim)| ensures IsDelim(delim, s[k]) {
        assert s[k] == s[1..][k - 1];
      }
    }
  }

  /** Drops the trailing run of white space (see TrimEndPrefix for what it leaves). */
  function TrimEnd(s: string): (r: string)
    ensures |r| <= |s|
    ensures r == [] || !IsSpace(r[|r| - 1])
  {
    if s != [] && IsSpace(s[|s| - 1]) then TrimEnd(s[..|s| - 1]) else s
  }

  /** What TrimEnd leaves is a prefix, and what it drops is white space. */
  lemma {:induction false} TrimEndPrefix(s: string)
    ensures TrimEnd(s) == s[..|TrimEnd(s)|]
    ensures forall k :: |TrimEnd(s)| <= k < |s| ==> IsSpace(s[k])
    decreases |s|
  {
    if s != [] && IsSpace(s[|s| - 1]) {
      TrimEndPrefix(s[..|s| - 1]);
      forall k | |TrimEnd(s)| <= k < |s| - 1 ensures IsSpace(s[k]) {
        assert s[k] == s[..|s| - 1][k];
      }
    }
  }

  /** The number of white-space characters `trim()` removes at the front. */
  function LeadingSpaces(s: string): (n: nat)
    ensures n <= |s|
  {
    |s| - |DropLeading(s, Space)|
  }

  /** JavaScript's `s.trim()`: it starts and ends with a non-space (see TrimSlice for what it is cut from). */
  function Trim(s: string): (r: string)
    ensures |r| <= |s|
    ensures r == [] || (!IsSpace(r[0]) && !IsSpace(r[|r| - 1]))
  {
    TrimEndPrefix(DropLeading(s, Space));
    TrimEnd(DropLeading(s, Space))
  }

  /**
   * `s.trim()` is the slice of `s` left after removing the white space at
   * both ends: `LeadingSpaces(s)` spaces before it, only spaces after it.
   */
  lemma TrimSlice(s: string)
    ensures AllSpace(s[..LeadingSpaces(s)])
    ensures LeadingSpaces(s) < |s| ==> !IsSpace(s[LeadingSpaces(s)])
    ensures LeadingSpaces(s) + |Trim(s)| <= |s|
    ensures Trim(s) == s[LeadingSpaces(s)..LeadingSpaces(s) + |Trim(s)|]
    ensures AllSpace(s[LeadingSpaces(s) + |Trim(s)|..])
  {
    var d := DropLeading(s, Space);
    var n := LeadingSpaces(s);
    DropLeadingSuffix(s, Space);
    TrimEndPrefix(d);
    assert d == s[n..];
    if n < |s| {
      assert s[n] == d[0];
    }
    var m := n + |Trim(s)|;
    forall k | 0 <= k < |s| - m ensures IsSpace(s[m..][k]) {
      assert s[m..][k] == d[|Trim(s)| + k];
    }
  }

  /** Position by position, `s.trim()` is `s` from its first non-space character on. */
  lemma TrimAt(s: string)
    ensures LeadingSpaces(s) + |Trim(s)| <= |s|
    ensures forall m :: 0 <= m < |Trim(s)| ==> Trim(s)[m] == s[LeadingSpaces(s) + m]
  {
    TrimSlice(s);
  }

  /** `s.trim().length > 0` is false. */
  predicate IsBlank(s: string) {
    Trim(s) == []
  }

  /** A string is blank exactly when it is white space throughout. */
  lemma BlankIffAllSpace(s: string)
    ensures IsBlank(s) <==> AllSpace(s)
  {
    var n := LeadingSpaces(s);
    TrimSlice(s);
    assert s == s[..n] + s[n..];
  }

  /** Trimming twice is trimming once. */
  lemma TrimIdempotent(s: string)
    ensures Trim(Trim(s)) == Trim(s)
  {
    var t := Trim(s);
    if t != [] {
      TrimSlice(t);
      assert LeadingSpaces(t) == 0;
      assert TrimEnd(DropLeading(t, Space)) == TrimEnd(t);
    }
  }

  // ---------------------------------------------------------------- split and join

  /**
   * `s.split(re)` where `re` matches one or more delimiter characters: the
   * pieces between maximal runs of delimiters. A leading (trailing) run gives
   * an empty first (last) piece, and the empty string gives `[""]`.
   */
  function Split(s: string, delim: Delim): (pieces: seq<string>)
    ensures |pieces| >= 1
    decreases |s|
  {
    if s == [] then [""]
    else if IsDelim(delim, s[0]) then [""] + Split(DropLeading(s, delim), delim)
    else
      var rest := Split(s[1..], delim);
      [[s[0]] + rest[0]] + rest[1..]
  }

  /** No piece contains a delimiter. */
  lemma {:induction false} SplitPiecesNoDelim(s: string, delim: Delim)
    ensures forall k :: 0 <= k < |Split(s, delim)| ==> NoDelim(Split(s, delim)[k], delim)
    decreases |s|
  {
    if s == [] {
    } else if IsDelim(delim, s[0]) {
      SplitPiecesNoDelim(DropLeading(s, delim), delim);
    } else {
      var rest := Split(s[1..], delim);
      SplitPiecesNoDelim(s[1..], delim);
      var first := [s[0]] + rest[0];
      assert NoDelim(first, delim) by {
        forall i | 0 <= i < |first| ensures !IsDelim(delim, first[i]) {
          if i > 0 { assert first[i] == rest[0][i - 1]; }
        }
      }
    }
  }

  /** JavaScript's `parts.join(sep)`. */
  function Join(parts: seq<string>, sep: string): string {
    if parts == [] then ""
    else if |parts| == 1 then parts[0]
    else parts[0] + sep + Join(parts[1..], sep)
  }

  /** A join starts with its first piece, so it is at least as long. */
  lemma JoinLength(parts: seq<string>, sep: string)
    requires parts != []
    ensures |Join(parts, sep)| >= |parts[0]|
  {
  }

  function Concat(parts: seq<string>): string {
    if parts == [] then "" else parts[0] + Concat(parts[1..])
  }

  /** The characters of `s` that are not delimiters, in order. */
  function Keep(s: string, delim: Delim): (r: string)
    ensures NoDelim(r, delim)
  {
    if s == [] then ""
    else (if IsDelim(delim, s[0]) then "" else [s[0]]) + Keep(s[1..], delim)
  }

  lemma {:induction false} KeepDropLeading(s: string, delim: Delim)
    ensures Keep(DropLeading(s, delim), delim) == Keep(s, delim)
    decreases |s|
  {
    if s != [] && IsDelim(delim, s[0]) {
      KeepDropLeading(s[1..], delim);
    }
  }

  /** Split loses exactly the delimiters: its pieces put together are `s` without them. */
  lemma {:induction false} SplitConcat(s: string, delim: Delim)
    ensures Concat(Split(s, delim)) == Keep(s, delim)
    decreases |s|
  {
    if s == [] {
    } else if IsDelim(delim, s[0]) {
      var t := DropLeading(s, delim);
      SplitConcat(t, delim);
      KeepDropLeading(s, delim);
    } else {
      var rest := Split(s[1..], delim);
      SplitConcat(s[1..], delim);
      assert Concat(rest) == rest[0] + Concat(rest[1..]);
      assert Split(s, delim) == [[s[0]] + rest[0]] + rest[1..];
    }
  }

  /** A string without delimiters is one piece. */
  lemma {:induction false} SplitNoDelim(p: string, delim: Delim)
    requires NoDelim(p, delim)
    ensures Split(p, delim) == [p]
    decreases |p|
  {
    if p != [] {
      SplitNoDelim(p[1..], delim);
      assert [p[0]] + p[1..] == p;
    }
  }

  /** A delimiter-free piece followed by a delimiter splits off as the first piece. */
  lemma {:induction false} SplitAfterPiece(a: string, c: char, t: string, delim: Delim)
    requires NoDelim(a, delim) && IsDelim(delim, c)
    requires t == [] || !IsDelim(delim, t[0])
    ensures Split(a + [c] + t, delim) == [a] + Split(t, delim)
    decreases |a|
  {
    var s := a + [c] + t;
    if a == [] {
      assert s == [c] + t;
      assert DropLeading(s, delim) == DropLeading(t, delim) == t;
    } else {
      assert s[1..] == a[1..] + [c] + t;
      SplitAfterPiece(a[1..], c, t, delim);
      assert [a[0]] + a[1..] == a;
    }
  }

  /**
   * Splitting undoes joining with one delimiter, provided the pieces contain
   * no delimiter and no piece strictly inside the list is empty.
   */
  lemma {:induction false} SplitJoin(ps: seq<string>, c: char, delim: Delim)
    requires |ps| >= 1 && IsDelim(delim, c)
    requires forall k :: 0 <= k < |ps| ==> NoDelim(ps[k], delim)
    requires forall k :: 0 < k < |ps| - 1 ==> ps[k] != []
    ensures Split(Join(ps, [c]), delim) == ps
    decreases |ps|
  {
    if |ps| == 1 {
      SplitNoDelim(ps[0], delim);
    } else {
      var t := Join(ps[1..], [c]);
      SplitJoin(ps[1..], c, delim);
      if |ps| > 2 {
        assert ps[1] != [] && t == ps[1] + [c] + Join(ps[2..], [c]);
        assert t[0] == ps[1][0];
      }
      SplitAfterPiece(ps[0], c, t, delim);
      assert ps == [ps[0]] + ps[1..];
    }
  }

  /** Pieces strictly inside the split are non-empty. */
  lemma {:induction false} SplitInteriorNonEmpty(s: string, delim: Delim, k: nat)
    requires 0 < k < |Split(s, delim)| - 1
    ensures Split(s, delim)[k] != []
    decreases |s|
  {
    if IsDelim(delim, s[0]) {
      var t := DropLeading(s, delim);
      if k == 1 {
        SplitFirstNonEmpty(t, delim);
      } else {
        SplitInteriorNonEmpty(t, delim, k - 1);
      }
    } else {
      SplitInteriorNonEmpty(s[1..], delim, k);
    }
  }

  /** A string that starts with a non-delimiter has a non-empty first piece. */
  lemma SplitFirstNonEmpty(s: string, delim: Delim)
    requires s != [] && !IsDelim(delim, s[0])
    ensures Split(s, delim)[0] != []
  {
  }

  /** A string that ends with a non-delimiter has a non-empty last piece. */
  lemma {:induction false} SplitLastNonEmpty(s: string, delim: Delim)
    requires s != [] && !IsDelim(delim, s[|s| - 1])
    ensures Split(s, delim)[|Split(s, delim)| - 1] != []
    decreases |s|
  {
    if IsDelim(delim, s[0]) {
      var t := DropLeading(s, delim);
      DropLeadingSuffix(s, delim);
      assert t != [] && t[|t| - 1] == s[|s| - 1];
      SplitLastNonEmpty(t, delim);
    } else if |s| > 1 {
      assert s[1..][|s| - 2] == s[|s| - 1];
      SplitLastNonEmpty(s[1..], delim);
    }
  }

  /** Every piece of the split stands verbatim in `s`, at the offset returned. */
  lemma {:induction false} SplitPieceOffset(s: string, delim: Delim, k: nat) returns (i: nat)
    requires k < |Split(s, delim)|
    ensures i + |Split(s, delim)[k]| <= |s|
    ensures forall m :: 0 <= m < |Split(s, delim)[k]| ==> s[i + m] == Split(s, delim)[k][m]
    decreases |s|
  {
    if k == 0 {
      SplitFirstPrefix(s, delim);
      i := 0;
    } else if IsDelim(delim, s[0]) {
      var t := DropLeading(s, delim);
      SplitAfterRun(s, delim);
      DropLeadingSuffix(s, delim);
      var j := SplitPieceOffset(t, delim, k - 1);
      i := |s| - |t| + j;
    } else {
      SplitAfterChar(s, delim);
      var j := SplitPieceOffset(s[1..], delim, k);
      i := 1 + j;
    }
  }

  /** The first piece is a prefix of the string. */
  lemma {:induction false} SplitFirstPrefix(s: string, delim: Delim)
    ensures |Split(s, delim)[0]| <= |s| && Split(s, delim)[0] == s[..|Split(s, delim)[0]|]
    decreases |s|
  {
    if s != [] && !IsDelim(delim, s[0]) {
      SplitFirstPrefix(s[1..], delim);
      var p := Split(s[1..], delim)[0];
      assert Split(s, delim)[0] == [s[0]] + p;
      assert s[..1 + |p|] == [s[0]] + s[1..][..|p|];
    }
  }

  /** After a leading run of delimiters, the pieces are those of the rest, after an empty one. */
  lemma SplitAfterRun(s: string, delim: Delim)
    requires s != [] && IsDelim(delim, s[0])
    ensures |Split(s, delim)| == 1 + |Split(DropLeading(s, delim), delim)|
    ensures forall k :: 0 < k < |Split(s, delim)| ==> Split(s, delim)[k] == Split(DropLeading(s, delim), delim)[k - 1]
  {
  }

  /** After a leading non-delimiter, the pieces after the first are those of the rest. */
  lemma SplitAfterChar(s: string, delim: Delim)
    requires s != [] && !IsDelim(delim, s[0])
    ensures |Split(s, delim)| == |Split(s[1..], delim)|
    ensures forall k :: 0 < k < |Split(s, delim)| ==> Split(s, delim)[k] == Split(s[1..], delim)[k]
  {
  }

  // ---------------------------------------------------------------- sentences and words

  /** `.filter(s => s.trim().length > 0)`. */
  function NonBlank(ps: seq<string>): (r: seq<string>)
    ensures |r| <= |ps|
    ensures forall k :: 0 <= k < |r| ==> !IsBlank(r[k]) && r[k] in ps
    ensures forall p :: p in ps && !IsBlank(p) ==> p in r
  {
    if ps == [] then []
    else if IsBlank(ps[0]) then NonBlank(ps[1..])
    else [ps[0]] + NonBlank(ps[1..])
  }

  /** Filtering keeps pieces free of delimiters. */
  lemma {:induction false} NonBlankNoDelim(ps: seq<string>, delim: Delim)
    requires forall k :: 0 <= k < |ps| ==> NoDelim(ps[k], delim)
    ensures forall k :: 0 <= k < |NonBlank(ps)| ==> NoDelim(NonBlank(ps)[k], delim)
  {
    if ps != [] {
      NonBlankNoDelim(ps[1..], delim);
    }
  }

  /** `text.split(/[.!?]+/).filter(s => s.trim().length > 0)`; the sentences are not trimmed. */
  function Sentences(text: string): (r: seq<string>)
    ensures forall k :: 0 <= k < |r| ==> !IsBlank(r[k]) && NoDelim(r[k], Terminator)
  {
    SplitPiecesNoDelim(text, Terminator);
    NonBlankNoDelim(Split(text, Terminator), Terminator);
    NonBlank(Split(text, Terminator))
  }

  /** An empty text has no sentences. */
  lemma NoSentences()
    ensures Sentences("") == []
  {
    assert Split("", Terminator) == [""];
    assert IsBlank("");
  }

  /** `sentence.trim().split(/\s+/)`: the single empty word exactly for a blank sentence. */
  function Words(sentence: string): (r: seq<string>)
    ensures r == [""] <==> IsBlank(sentence)
  {
    var t := Trim(sentence);
    if t != [] then
      SplitFirstNonEmpty(t, Space);
      Split(t, Space)
    else
      Split(t, Space)
  }

  /** The words of a non-blank sentence are non-empty runs of non-space characters. */
  lemma WordsNonEmpty(sentence: string, k: nat)
    requires !IsBlank(sentence) && k < |Words(sentence)|
    ensures Words(sentence)[k] != [] && NoDelim(Words(sentence)[k], Space)
  {
    var t := Trim(sentence);
    var ws := Words(sentence);
    SplitPiecesNoDelim(t, Space);
    if k == 0 {
      SplitFirstNonEmpty(t, Space);
    } else if k == |ws| - 1 {
      SplitLastNonEmpty(t, Space);
    } else {
      SplitInteriorNonEmpty(t, Space, k);
    }
  }

  /** Put together, the words of a sentence are the sentence without its white space. */
  lemma WordsConcat(sentence: string)
    ensures Concat(Words(sentence)) == Keep(sentence, Space)
  {
    SplitConcat(Trim(sentence), Space);
    KeepTrim(sentence);
  }

  /** Trimming removes white space only. */
  lemma KeepTrim(s: string)
    ensures Keep(Trim(s), Space) == Keep(s, Space)
  {
    var n := LeadingSpaces(s);
    var t := Trim(s);
    TrimSlice(s);
    var m := n + |t|;
    assert s == s[..n] + s[n..m] + s[m..] by {
      assert s[..n] + s[n..m] == s[..m];
    }
    KeepAppend(s[..n], s[n..m], Space);
    KeepAppend(s[..n] + s[n..m], s[m..], Space);
    KeepSpaces(s[..n]);
    KeepSpaces(s[m..]);
  }

  lemma {:induction false} KeepAppend(a: string, b: string, delim: Delim)
    ensures Keep(a + b, delim) == Keep(a, delim) + Keep(b, delim)
    decreases |a|
  {
    if a == [] {
      assert a + b == b;
    } else {
      KeepAppend(a[1..], b, delim);
      assert (a + b)[0] == a[0] && (a + b)[1..] == a[1..] + b;
      var head := if IsDelim(delim, a[0]) then "" else [a[0]];
      calc {
        Keep(a + b, delim);
        head + Keep(a[1..] + b, delim);
        head + (Keep(a[1..], delim) + Keep(b, delim));
        (head + Keep(a[1..], delim)) + Keep(b, delim);
      }
    }
  }

  lemma {:induction false} KeepSpaces(s: string)
    requires AllSpace(s)
    ensures Keep(s, Space) == ""
    decreases |s|
  {
    if s != [] { KeepSpaces(s[1..]); }
  }

  /** Each word of a sentence stands verbatim in the sentence. */
  lemma WordOffset(sentence: string, k: nat) returns (i: nat)
    requires k < |Words(sentence)|
    ensures i + |Words(sentence)[k]| <= |sentence|
    ensures sentence[i..i + |Words(sentence)[k]|] == Words(sentence)[k]
  {
    TrimAt(sentence);
    i := PieceWithin(Trim(sentence), sentence, LeadingSpaces(sentence), Space, k);
    SliceFromElements(sentence, i, Words(sentence)[k]);
  }

  /** A piece of `t` stands in any string that holds `t` from position `n` on. */
  lemma PieceWithin(t: string, s: string, n: nat, delim: Delim, k: nat) returns (i: nat)
    requires k < |Split(t, delim)|
    requires n + |t| <= |s| && forall m :: 0 <= m < |t| ==> t[m] == s[n + m]
    ensures i + |Split(t, delim)[k]| <= |s|
    ensures forall m :: 0 <= m < |Split(t, delim)[k]| ==> s[i + m] == Split(t, delim)[k][m]
  {
    var j := SplitPieceOffset(t, delim, k);
    i := n + j;
  }

  /** A string that agrees with `w` position by position from `i` on holds `w` as a slice there. */
  lemma SliceFromElements(s: string, i: nat, w: string)
    requires i + |w| <= |s| && forall m :: 0 <= m < |w| ==> s[i + m] == w[m]
    ensures s[i..i + |w|] == w
  {
  }

  // ---------------------------------------------------------------- length, search, replace

  /** JavaScript's `length`: characters outside the Basic Multilingual Plane take two UTF-16 code units. */
  function Utf16Length(s: string): (n: nat)
    ensures |s| <= n <= 2 * |s|
  {
    if s == [] then 0
    else (if s[0] as int >= 0x1_0000 then 2 else 1) + Utf16Length(s[1..])
  }

  predicate OccursAt(s: string, p: string, i: nat) {
    i + |p| <= |s| && s[i..i + |p|] == p
  }

  /** `s.indexOf(p, from)`: the first position at or after `from` where `p` occurs. */
  function IndexFrom(s: string, p: string, from: nat): (r: Option<nat>)
    ensures r.Some? ==> from <= r.value && OccursAt(s, p, r.value)
    ensures r.Some? ==> forall j :: from <= j < r.value ==> !OccursAt(s, p, j)
    ensures r.None? ==> forall j :: from <= j ==> !OccursAt(s, p, j)
    decreases |s| - from
  {
    if from + |p| > |s| then None
    else if s[from..from + |p|] == p then Some(from)
    else IndexFrom(s, p, from + 1)
  }

  function IndexOf(s: string, p: string): Option<nat> {
    IndexFrom(s, p, 0)
  }

  /** `s.includes(p)`. */
  predicate Includes(s: string, p: string) {
    IndexOf(s, p).Some?
  }

  /**
   * `s.replace(p, rep)` with a string pattern: the first occurrence of `p`
   * is replaced; putting `p` back where `rep` now stands gives `s` again.
   */
  function ReplaceFirst(s: string, p: string, rep: string): (r: string)
    ensures IndexOf(s, p).None? ==> r == s
    ensures IndexOf(s, p).Some? ==>
      var i := IndexOf(s, p).value;
      && i + |rep| <= |r| && r[i..i + |rep|] == rep
      && r[..i] + p + r[i + |rep|..] == s
  {
    match IndexOf(s, p)
    case None => s
    case Some(i) => s[..i] + rep + s[i + |p|..]
  }
}
