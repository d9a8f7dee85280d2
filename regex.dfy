/**
 * The regular expressions of the extension's tables, all written with the
 * `i` flag and matched with `String.prototype.match` (no `g` flag): the
 * leftmost match wins, and at each start position the alternatives of a
 * `|` are tried left to right. Only the constructs the tables use are
 * modelled: literal characters, `\s+`, and one trailing capture group
 * `(.+)` or `(.*)`. Quantifiers are greedy and backtrack one character at a
 * time, as ECMAScript's backtracking matcher does.
 */
module Regex {
  import opened Wrappers
  import opened Text

  /** One element of a pattern. */
  datatype Term =
    | Lit(c: char)            // a literal character; the `i` flag makes ASCII case irrelevant
    | Spaces                  // `\s+`
    | Group(allowEmpty: bool) // capture group 1: `(.*)` when allowEmpty, `(.+)` otherwise

  /** A pattern: the alternatives of a top-level `|`. */
  datatype Pattern = Pattern(alternatives: seq<seq<Term>>)

  /** Indices `start <= k < end` of the subject string. */
  datatype Span = Span(start: nat, end: nat)

  /** A successful match and where capture group 1 matched, if it took part. */
  datatype Match = Match(group: Option<Span>)

  /** The terms spelling out the literal text `w`. */
  function Word(w: string): (ts: seq<Term>)
    ensures |ts| == |w| && forall k :: 0 <= k < |w| ==> ts[k] == Lit(w[k])
  {
    seq(|w|, k requires 0 <= k < |w| => Lit(w[k]))
  }

  /** Case-insensitive equality of a subject character with a literal (ECMAScript's Canonicalize, on ASCII). */
  predicate SameLetter(a: char, b: char) {
    LowerChar(a) == LowerChar(b)
  }

  /** Which characters one repetition of a repeated term consumes. */
  predicate Repeats(t: Term, c: char) {
    match t
    case Lit(_) => false
    case Spaces => IsSpace(c)
    case Group(_) => !IsLineTerminator(c)
  }

  /** The fewest repetitions a repeated term accepts. */
  function MinRepeat(t: Term): nat {
    if t == Group(true) then 0 else 1
  }

  /** The longest run of characters from index `i` that term `t` can repeat over. */
  function RunLength(t: Term, s: string, i: nat): (n: nat)
    requires i <= |s|
    decreases |s| - i
    ensures i + n <= |s|
    ensures forall k :: i <= k < i + n ==> Repeats(t, s[k])
    ensures i + n < |s| ==> !Repeats(t, s[i + n])
  {
    if i < |s| && Repeats(t, s[i]) then 1 + RunLength(t, s, i + 1) else 0
  }

  /** Some term of `ts` is capture group 1. */
  predicate HasGroup(ts: seq<Term>) {
    exists k :: 0 <= k < |ts| && ts[k].Group?
  }

  /** No term of `ts` is a `(.*)` group, which is the only one that may capture nothing. */
  predicate NoEmptyGroup(ts: seq<Term>) {
    forall k :: 0 <= k < |ts| ==> ts[k] != Group(true)
  }

  /** The captured span lies in `s` at or after `i` and holds no line terminator. */
  predicate GroupWithin(s: string, i: nat, m: Match) {
    m.group.Some? ==>
      && i <= m.group.value.start <= m.group.value.end <= |s|
      && forall k :: m.group.value.start <= k < m.group.value.end ==> !IsLineTerminator(s[k])
  }

  /**
   * Matching the terms `ts` against `s` from index `i` (the end of the match
   * is not anchored). A capture group spans characters of `s` itself, so it
   * keeps their case; it is present whenever the terms contain a group, and
   * it is nonempty unless that group is `(.*)`.
   */
  function MatchFrom(ts: seq<Term>, s: string, i: nat): (r: Option<Match>)
    requires i <= |s|
    decreases |ts|, 1
    ensures r.Some? ==> GroupWithin(s, i, r.value)
    ensures r.Some? && HasGroup(ts) ==> r.value.group.Some?
    ensures r.Some? && r.value.group.Some? && NoEmptyGroup(ts) ==>
              r.value.group.value.start < r.value.group.value.end
    ensures r.Some? && !HasGroup(ts) ==> r.value.group.None?
  {
    if ts == [] then Some(Match(None))
    else match ts[0]
      case Lit(c) =>
        if i < |s| && SameLetter(s[i], c) then
          var r := MatchFrom(ts[1..], s, i + 1);
          assert HasGroup(ts) <==> HasGroup(ts[1..]) by {
            if HasGroup(ts) {
              var k :| 0 <= k < |ts| && ts[k].Group?;
              assert ts[1..][k - 1] == ts[k];
            }
            if HasGroup(ts[1..]) {
              var k :| 0 <= k < |ts[1..]| && ts[1..][k].Group?;
              assert ts[k + 1] == ts[1..][k];
            }
          }
          r
        else None
      case _ => Backtrack(ts, s, i, RunLength(ts[0], s, i))
  }

  /**
   * The repeated term `ts[0]` takes `len` characters, then fewer and fewer
   * until the rest of the terms match (greedy backtracking).
   */
  function Backtrack(ts: seq<Term>, s: string, i: nat, len: nat): (r: Option<Match>)
    requires ts != [] && !ts[0].Lit?
    requires i + len <= |s|
    requires forall k :: i <= k < i + len ==> Repeats(ts[0], s[k])
    decreases |ts|, 0, len
    ensures r.Some? ==> GroupWithin(s, i, r.value)
    ensures r.Some? && HasGroup(ts) ==> r.value.group.Some?
    ensures r.Some? && r.value.group.Some? && NoEmptyGroup(ts) ==>
              r.value.group.value.start < r.value.group.value.end
    ensures r.Some? && !HasGroup(ts) ==> r.value.group.None?
  {
    if len < MinRepeat(ts[0]) then None
    else match MatchFrom(ts[1..], s, i + len)
      case Some(m) =>
        assert HasGroup(ts) && !ts[0].Group? ==> HasGroup(ts[1..]) by {
          if HasGroup(ts) && !ts[0].Group? {
            var k :| 0 <= k < |ts| && ts[k].Group?;
            assert ts[1..][k - 1] == ts[k];
          }
        }
        assert HasGroup(ts[1..]) || ts[0].Group? ==> HasGroup(ts) by {
          if HasGroup(ts[1..]) {
            var k :| 0 <= k < |ts[1..]| && ts[1..][k].Group?;
            assert ts[k + 1] == ts[1..][k];
          } else if ts[0].Group? {
            assert ts[0].Group?;
          }
        }
        assert NoEmptyGroup(ts) ==> NoEmptyGroup(ts[1..]) by {
          if NoEmptyGroup(ts) {
            forall k | 0 <= k < |ts| - 1 ensures ts[1..][k] != Group(true) {
              assert ts[1..][k] == ts[k + 1];
            }
          }
        }
        assert ts[0].Group? ==> forall k :: i <= k < i + len ==> !IsLineTerminator(s[k]) by {
          if ts[0].Group? {
            forall k | i <= k < i + len ensures !IsLineTerminator(s[k]) {
              assert Repeats(ts[0], s[k]);
            }
          }
        }
        Some(if ts[0].Group? then Match(Some(Span(i, i + len))) else m)
      case None => if len == 0 then None else Backtrack(ts, s, i, len - 1)
  }

  /** The first alternative (from index `a` on) that matches at index `i`. */
  function FirstAlternative(p: Pattern, s: string, i: nat, a: nat): (r: Option<Match>)
    requires i <= |s|
    decreases |p.alternatives| - a
    ensures r.Some? ==> GroupWithin(s, i, r.value)
    ensures r.Some? && (forall b :: 0 <= b < |p.alternatives| ==> HasGroup(p.alternatives[b])) ==>
              r.value.group.Some?
    ensures r.Some? && r.value.group.Some? &&
            (forall b :: 0 <= b < |p.alternatives| ==> NoEmptyGroup(p.alternatives[b])) ==>
              r.value.group.value.start < r.value.group.value.end
    ensures r.Some? && NeverCaptures(p) ==> r.value.group.None?
  {
    if a >= |p.alternatives| then None
    else match MatchFrom(p.alternatives[a], s, i)
      case Some(m) => Some(m)
      case None => FirstAlternative(p, s, i, a + 1)
  }

  /** Every alternative of `p` contains capture group 1. */
  predicate AlwaysCaptures(p: Pattern) {
    forall b :: 0 <= b < |p.alternatives| ==> HasGroup(p.alternatives[b])
  }

  /** No alternative of `p` contains a capture group. */
  predicate NeverCaptures(p: Pattern) {
    forall b :: 0 <= b < |p.alternatives| ==> !HasGroup(p.alternatives[b])
  }

  /** No alternative of `p` contains a `(.*)` group. */
  predicate CapturesNonEmpty(p: Pattern) {
    forall b :: 0 <= b < |p.alternatives| ==> NoEmptyGroup(p.alternatives[b])
  }

  /** The leftmost match of `p` starting at index `i` or later. */
  function ExecFrom(p: Pattern, s: string, i: nat): (r: Option<Match>)
    requires i <= |s|
    decreases |s| - i
    ensures r.Some? ==> GroupWithin(s, 0, r.value)
    ensures r.Some? && AlwaysCaptures(p) ==> r.value.group.Some?
    ensures r.Some? && r.value.group.Some? && CapturesNonEmpty(p) ==>
              r.value.group.value.start < r.value.group.value.end
    ensures r.Some? && NeverCaptures(p) ==> r.value.group.None?
  {
    match FirstAlternative(p, s, i, 0)
    case Some(m) => Some(m)
    case None => if i == |s| then None else ExecFrom(p, s, i + 1)
  }

  /** `s.match(p)` for a pattern without the `g` flag. */
  function Exec(p: Pattern, s: string): (r: Option<Match>)
    ensures r.Some? ==> GroupWithin(s, 0, r.value)
    ensures r.Some? && AlwaysCaptures(p) ==> r.value.group.Some?
    ensures r.Some? && r.value.group.Some? && CapturesNonEmpty(p) ==>
              r.value.group.value.start < r.value.group.value.end
    ensures r.Some? && NeverCaptures(p) ==> r.value.group.None?
  {
    ExecFrom(p, s, 0)
  }

  /**
   * The search tries start positions from left to right: when `j` is the first
   * position at or after `i` where some alternative matches, the search from
   * `i` returns the match of the first alternative that matches at `j`.
   */
  lemma {:induction false} ExecFromLeftmost(p: Pattern, s: string, i: nat, j: nat)
    requires i <= j <= |s| && FirstAlternative(p, s, j, 0).Some?
    requires forall l :: i <= l < j ==> FirstAlternative(p, s, l, 0).None?
    decreases j - i
    ensures ExecFrom(p, s, i) == FirstAlternative(p, s, j, 0)
  {
    if i < j {
      ExecFromLeftmost(p, s, i + 1, j);
    }
  }

  /** `s.match(p)` is the match at the leftmost position where any alternative matches. */
  lemma ExecLeftmost(p: Pattern, s: string, j: nat)
    requires j <= |s| && FirstAlternative(p, s, j, 0).Some?
    requires forall l :: 0 <= l < j ==> FirstAlternative(p, s, l, 0).None?
    ensures Exec(p, s) == FirstAlternative(p, s, j, 0)
  {
    ExecFromLeftmost(p, s, 0, j);
  }

  /** `w` occurs at index `i` of `s`, ignoring ASCII case. */
  predicate WordAt(s: string, w: string, i: nat) {
    i + |w| <= |s| && forall k :: 0 <= k < |w| ==> SameLetter(s[i + k], w[k])
  }

  /** Literal text matches exactly where it occurs (ignoring case), and the rest of the terms go on after it. */
  lemma {:induction false} MatchWord(w: string, rest: seq<Term>, s: string, i: nat)
    requires i <= |s|
    decreases |w|
    ensures MatchFrom(Word(w) + rest, s, i) == if WordAt(s, w, i) then MatchFrom(rest, s, i + |w|) else None
  {
    var ts := Word(w) + rest;
    if w == [] {
      assert ts == rest;
    } else {
      assert ts[0] == Lit(w[0]);
      assert ts[1..] == Word(w[1..]) + rest;
      if i < |s| && SameLetter(s[i], w[0]) {
        MatchWord(w[1..], rest, s, i + 1);
        assert WordAt(s, w, i) <==> WordAt(s, w[1..], i + 1) by {
          if WordAt(s, w[1..], i + 1) {
            forall k | 0 <= k < |w| ensures SameLetter(s[i + k], w[k]) {
              if k > 0 {
                assert w[k] == w[1..][k - 1];
              }
            }
          }
          if WordAt(s, w, i) {
            forall k | 0 <= k < |w| - 1 ensures SameLetter(s[i + 1 + k], w[1..][k]) {
              assert w[1..][k] == w[k + 1];
            }
          }
        }
      } else {
        assert !WordAt(s, w, i) by {
          if i < |s| && i + |w| <= |s| {
            assert !SameLetter(s[i + 0], w[0]);
          }
        }
      }
    }
  }

  /** `\s+` takes the whole run of white space when the rest of the terms then match. */
  lemma SpacesStep(ts: seq<Term>, s: string, i: nat)
    requires ts != [] && ts[0] == Spaces
    requires i <= |s| && RunLength(Spaces, s, i) >= 1
    requires MatchFrom(ts[1..], s, i + RunLength(Spaces, s, i)).Some?
    ensures MatchFrom(ts, s, i) == MatchFrom(ts[1..], s, i + RunLength(Spaces, s, i))
  {
  }

  /** A final group captures everything up to the next line terminator or the end. */
  lemma FinalGroup(allowEmpty: bool, s: string, j: nat)
    requires j <= |s| && RunLength(Group(allowEmpty), s, j) >= MinRepeat(Group(allowEmpty))
    ensures MatchFrom([Group(allowEmpty)], s, j) ==
              Some(Match(Some(Span(j, j + RunLength(Group(allowEmpty), s, j)))))
  {
    var ts, n := [Group(allowEmpty)], RunLength(Group(allowEmpty), s, j);
    assert ts[1..] == [];
    assert MatchFrom(ts[1..], s, j + n) == Some(Match(None));
    assert Backtrack(ts, s, j, n) == Some(Match(Some(Span(j, j + n))));
  }

  /** Letter `c` occurs nowhere in `s`, ignoring ASCII case. */
  predicate Absent(s: string, c: char) {
    forall k :: 0 <= k < |s| ==> !SameLetter(s[k], c)
  }

  /** A pattern each of whose alternatives starts with a letter absent from `s` does not match `s`. */
  lemma ExecFirstLetterAbsent(p: Pattern, s: string)
    requires forall b :: 0 <= b < |p.alternatives| ==>
               p.alternatives[b] != [] && p.alternatives[b][0].Lit? && Absent(s, p.alternatives[b][0].c)
    ensures Exec(p, s).None?
  {
    forall j, b | 0 <= j <= |s| && 0 <= b < |p.alternatives|
      ensures MatchFrom(p.alternatives[b], s, j).None?
    {
      assert j < |s| ==> !SameLetter(s[j], p.alternatives[b][0].c);
    }
    ExecNone(p, s);
  }

  /** A term that repeats over every character from `i` to the end runs to the end. */
  lemma {:induction false} RunLengthToEnd(t: Term, s: string, i: nat)
    requires i <= |s| && forall k :: i <= k < |s| ==> Repeats(t, s[k])
    decreases |s| - i
    ensures RunLength(t, s, i) == |s| - i
  {
    if i < |s| {
      RunLengthToEnd(t, s, i + 1);
    }
  }

  /** When the first alternative matches at index 0, `match` returns that match. */
  lemma ExecAtStart(p: Pattern, s: string)
    requires |p.alternatives| > 0 && MatchFrom(p.alternatives[0], s, 0).Some?
    ensures Exec(p, s) == MatchFrom(p.alternatives[0], s, 0)
  {
  }

  /** A pattern none of whose alternatives matches at any index fails. */
  lemma ExecNone(p: Pattern, s: string)
    requires forall j, b :: 0 <= j <= |s| && 0 <= b < |p.alternatives| ==> MatchFrom(p.alternatives[b], s, j).None?
    ensures Exec(p, s).None?
  {
    ExecFromNone(p, s, 0);
  }

  lemma {:induction false} ExecFromNone(p: Pattern, s: string, i: nat)
    requires i <= |s|
    requires forall j, b :: i <= j <= |s| && 0 <= b < |p.alternatives| ==> MatchFrom(p.alternatives[b], s, j).None?
    decreases |s| - i
    ensures ExecFrom(p, s, i).None?
  {
    FirstAlternativeNone(p, s, i, 0);
    if i < |s| {
      ExecFromNone(p, s, i + 1);
    }
  }

  lemma {:induction false} FirstAlternativeNone(p: Pattern, s: string, i: nat, a: nat)
    requires i <= |s| && a <= |p.alternatives|
    requires forall b :: a <= b < |p.alternatives| ==> MatchFrom(p.alternatives[b], s, i).None?
    decreases |p.alternatives| - a
    ensures FirstAlternative(p, s, i, a).None?
  {
    if a < |p.alternatives| {
      FirstAlternativeNone(p, s, i, a + 1);
    }
  }

  /** `match[1]`: the text of capture group 1, in the case it has in `s`. */
  function Captured(s: string, m: Match): (r: Option<string>)
    requires GroupWithin(s, 0, m)
    ensures r.Some? <==> m.group.Some?
    ensures r.Some? ==> r.value == s[m.group.value.start..m.group.value.end]
  {
    match m.group
    case Some(g) => Some(s[g.start..g.end])
    case None => None
  }
}
