/**
 * The JavaScript string operations the extension relies on: `toLowerCase`,
 * `trim`, `includes`/`indexOf` and `split(separator)[1]`.
 * Characters are Unicode scalar values; the code's strings are UTF-16, which
 * agrees with this everywhere outside the astral planes.
 */
module Text {
  import opened Wrappers

  /** ECMAScript LineTerminator code points: what the regular expression `.` does not match. */
  predicate IsLineTerminator(c: char) {
    c == '\n' || c == '\r' || c == '\U{2028}' || c == '\U{2029}'
  }

  /** ECMAScript WhiteSpace and LineTerminator code points: what `trim()` strips and `\s` matches. */
  predicate IsSpace(c: char) {
    || IsLineTerminator(c)
    || c == '\t' || c == '\U{000B}' || c == '\U{000C}' || c == ' '
    || c == '\U{00A0}' || c == '\U{1680}' || ('\U{2000}' <= c <= '\U{200A}')
    || c == '\U{202F}' || c == '\U{205F}' || c == '\U{3000}' || c == '\U{FEFF}'
  }

  /** Lower-casing of one character, restricted to the ASCII letters. */
  function LowerChar(c: char): char {
    if 'A' <= c <= 'Z' then (c as int + 32) as char else c
  }

  /** `toLowerCase()`, restricted to the ASCII letters. */
  function ToLower(s: string): (r: string)
    ensures |r| == |s|
    ensures forall i :: 0 <= i < |s| ==> r[i] == LowerChar(s[i])
  {
    seq(|s|, i requires 0 <= i < |s| => LowerChar(s[i]))
  }

  /** Lower-casing acts character by character, so it distributes over concatenation. */
  lemma ToLowerAppend(a: string, b: string)
    ensures ToLower(a + b) == ToLower(a) + ToLower(b)
  {
  }

  /** Lower-casing leaves a string alone exactly when it has no capital ASCII letter. */
  lemma ToLowerUnchanged(s: string)
    ensures ToLower(s) == s <==> forall i :: 0 <= i < |s| ==> !('A' <= s[i] <= 'Z')
  {
    if ToLower(s) == s {
      forall i | 0 <= i < |s| ensures !('A' <= s[i] <= 'Z') {
        assert LowerChar(s[i]) == s[i];
      }
    }
  }

  /** The index of the first character at or after `i` that is not white space, or `|s|`. */
  function SkipSpaces(s: string, i: nat): (n: nat)
    requires i <= |s|
    decreases |s| - i
    ensures i <= n <= |s|
    ensures forall k :: i <= k < n ==> IsSpace(s[k])
    ensures n < |s| ==> !IsSpace(s[n])
  {
    if i < |s| && IsSpace(s[i]) then SkipSpaces(s, i + 1) else i
  }

  /** The end of `s[lo..j]` once its trailing white space is cut off. */
  function CutSpaces(s: string, lo: nat, j: nat): (n: nat)
    requires lo <= j <= |s|
    decreases j
    ensures lo <= n <= j
    ensures forall k :: n <= k < j ==> IsSpace(s[k])
    ensures lo < n ==> !IsSpace(s[n - 1])
  {
    if lo < j && IsSpace(s[j - 1]) then CutSpaces(s, lo, j - 1) else j
  }

  /** Where `trim()`'s result starts in `s`. */
  function TrimStart(s: string): nat {
    SkipSpaces(s, 0)
  }

  /**
   * `trim()`: `s` without its leading and trailing white space. The result
   * is the infix of `s` at `TrimStart(s)`, only white space lies outside it,
   * and it neither starts nor ends with white space; it is empty exactly
   * when `s` is all white space.
   */
  function Trim(s: string): (r: string)
    ensures TrimStart(s) + |r| <= |s| && r == s[TrimStart(s)..TrimStart(s) + |r|]
    ensures forall k :: 0 <= k < TrimStart(s) ==> IsSpace(s[k])
    ensures forall k :: TrimStart(s) + |r| <= k < |s| ==> IsSpace(s[k])
    ensures r != [] ==> !IsSpace(r[0]) && !IsSpace(r[|r| - 1])
    ensures r == [] <==> forall k :: 0 <= k < |s| ==> IsSpace(s[k])
  {
    var lo := SkipSpaces(s, 0);
    var hi := CutSpaces(s, lo, |s|);
    assert lo < hi ==> s[lo..hi][0] == s[lo] && s[lo..hi][hi - lo - 1] == s[hi - 1];
    s[lo..hi]
  }

  /** Trimming a trimmed string changes nothing. */
  lemma TrimIdempotent(s: string)
    ensures Trim(Trim(s)) == Trim(s)
  {
    var r := Trim(s);
    if r != [] {
      assert TrimStart(r) == 0;
      assert CutSpaces(r, 0, |r|) == |r|;
    }
  }

  /** Trimming leaves a string alone exactly when neither end is white space. */
  lemma TrimUnchanged(s: string)
    ensures Trim(s) == s <==> s == [] || (!IsSpace(s[0]) && !IsSpace(s[|s| - 1]))
  {
    if s != [] && !IsSpace(s[0]) && !IsSpace(s[|s| - 1]) {
      assert TrimStart(s) == 0;
      assert CutSpaces(s, 0, |s|) == |s|;
    }
  }

  /** `w` occurs in `s` at index `i`. */
  predicate OccursAt(s: string, w: string, i: int) {
    0 <= i && i + |w| <= |s| && s[i..i + |w|] == w
  }

  /** `s.indexOf(w, from)`: the first index at or after `from` where `w` occurs. */
  function IndexOf(s: string, w: string, from: nat): (r: Option<nat>)
    decreases |s| - from
    ensures r.Some? ==> from <= r.value && OccursAt(s, w, r.value)
    ensures r.Some? ==> forall j :: from <= j < r.value ==> !OccursAt(s, w, j)
    ensures r.None? ==> forall j :: from <= j ==> !OccursAt(s, w, j)
  {
    if from + |w| > |s| then None
    else if s[from..from + |w|] == w then Some(from)
    else IndexOf(s, w, from + 1)
  }

  /** `s.includes(w)`. */
  predicate Contains(s: string, w: string) {
    IndexOf(s, w, 0).Some?
  }

  /** `includes` holds exactly when there is an occurrence somewhere. */
  lemma ContainsIff(s: string, w: string)
    ensures Contains(s, w) <==> exists i :: OccursAt(s, w, i)
  {
    if exists i :: OccursAt(s, w, i) {
      var i :| OccursAt(s, w, i);
      assert 0 <= i;
    }
  }

  /** An occurrence inside an infix of `s` is an occurrence in `s`. */
  lemma ContainsInfix(s: string, lo: nat, hi: nat, w: string)
    requires lo <= hi <= |s|
    requires Contains(s[lo..hi], w)
    ensures Contains(s, w)
  {
    var i := IndexOf(s[lo..hi], w, 0).value;
    assert s[lo..hi][i..i + |w|] == s[lo + i..lo + i + |w|];
    assert OccursAt(s, w, lo + i);
    ContainsIff(s, w);
  }

  /** An occurrence at index `k` of the infix `s[lo..hi]` is one at `lo + k` in `s`. */
  lemma OccursInInfix(s: string, lo: nat, hi: nat, w: string, k: nat)
    requires lo <= hi <= |s| && OccursAt(s[lo..hi], w, k)
    ensures OccursAt(s, w, lo + k)
  {
    var t := s[lo..hi];
    assert k + |w| <= |t|;
    forall m | 0 <= m < |w| ensures s[lo + k..lo + k + |w|][m] == w[m] {
      assert w[m] == t[k..k + |w|][m] == t[k + m] == s[lo + k + m];
    }
  }

  /** Trimming keeps an infix: it occurs in the text at `TrimStart`, and contains no word the text lacks. */
  lemma TrimmedInfix(s: string, w: string)
    requires !Contains(s, w)
    ensures OccursAt(s, Trim(s), TrimStart(s))
    ensures !Contains(Trim(s), w)
  {
    var c := Trim(s);
    var lo := TrimStart(s);
    if Contains(c, w) {
      ContainsInfix(s, lo, lo + |c|, w);
    }
  }

  /** Trimming a piece of `s` that lacks `w` gives text that occurs in `s` and lacks `w` too. */
  lemma TrimmedPieceIn(s: string, start: nat, piece: string, w: string)
    requires start + |piece| <= |s| && piece == s[start..start + |piece|]
    requires !Contains(piece, w)
    ensures Contains(s, Trim(piece)) && !Contains(Trim(piece), w)
  {
    TrimmedInfix(piece, w);
    OccursInInfix(s, start, start + |piece|, Trim(piece), TrimStart(piece));
    ContainsIff(s, Trim(piece));
  }

  /**
   * `s.split(sep)[1]`: the text between the first occurrence of `sep` and the
   * next one, or the end of `s` when there is no next one.
   */
  function SecondSplitPiece(s: string, sep: string): (r: string)
    requires sep != [] && Contains(s, sep)
    ensures var start := IndexOf(s, sep, 0).value + |sep|;
      && start + |r| <= |s| && r == s[start..start + |r|]
      && (start + |r| == |s| || OccursAt(s, sep, start + |r|))
    ensures !Contains(r, sep)
  {
    var i := IndexOf(s, sep, 0).value;
    var start := i + |sep|;
    var end := match IndexOf(s, sep, start) case Some(j) => j case None => |s|;
    assert start <= end;
    var r := s[start..end];
    assert !Contains(r, sep) by {
      if Contains(r, sep) {
        var k := IndexOf(r, sep, 0).value;
        OccursInInfix(s, start, end, sep, k);
      }
    }
    r
  }

  /**
   * The piece ends at the FIRST separator after the first one: no separator
   * starts inside it, even one that overlaps the piece's end.
   */
  lemma SecondSplitPieceEndsAtFirst(s: string, sep: string, j: nat)
    requires sep != [] && Contains(s, sep)
    requires IndexOf(s, sep, 0).value + |sep| <= j < IndexOf(s, sep, 0).value + |sep| + |SecondSplitPiece(s, sep)|
    ensures !OccursAt(s, sep, j)
  {
    var start := IndexOf(s, sep, 0).value + |sep|;
    match IndexOf(s, sep, start)
    case Some(e) =>
      assert |SecondSplitPiece(s, sep)| == e - start;
    case None =>
  }

  /** `s.split(sep)[1].trim()` occurs in `s` and contains no `sep`. */
  lemma TrimmedSplitPiece(s: string, sep: string)
    requires sep != [] && Contains(s, sep)
    ensures Contains(s, Trim(SecondSplitPiece(s, sep))) && !Contains(Trim(SecondSplitPiece(s, sep)), sep)
  {
    var piece := SecondSplitPiece(s, sep);
    TrimmedPieceIn(s, IndexOf(s, sep, 0).value + |sep|, piece, sep);
  }
}
