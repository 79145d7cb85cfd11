/**
 * The regular expressions the transcript parser applies with `String.prototype.match`
 * (no `g` flag: the leftmost match, with its capture groups).
 *
 * Every expression the parser uses is a sequence of literal characters,
 * optional literal characters (`c?`), `\s*`, and capturing digit groups
 * (`(\d+)`, `(\d{4})`, `(\d{1,2})`). In all of them the literals are neither
 * digits nor white space, a digit group is followed by a literal or by
 * optional parts only, and no optional literal is followed by the same
 * literal. Under those conditions the backtracking matcher never gives back
 * what a greedy step took, so reading each element greedily, as `MatchAt`
 * does, accepts exactly where the regular expression does and captures the
 * same digits. The leftmost match is found by trying every start position in
 * turn, as the regular-expression engine does.
 */
module Regex {
  import opened Wrappers
  import opened JsText

  datatype Atom =
    | Lit(c: char)                              // the character c
    | Opt(c: char)                              // c?
    | Spaces                                    // \s*
    | Digits(least: nat, most: Option<nat>)     // (\d{least,most}), or (\d{least,}) when most is None

  type Pattern = seq<Atom>

  /** Where a match at a given start ends, and what its groups captured. */
  datatype Match = Match(end: nat, groups: seq<string>)

  /** Every digit group asks for at least one digit. */
  predicate WellFormed(p: Pattern) {
    forall k :: 0 <= k < |p| ==> (p[k].Digits? ==> p[k].least >= 1)
  }

  function GroupCount(p: Pattern): nat {
    if p == [] then 0 else (if p[0].Digits? then 1 else 0) + GroupCount(p[1..])
  }

  /** End of the longest run of digits from `j` that keeps the group starting at `start` within `most`. */
  function RunEnd(s: string, start: nat, j: nat, most: Option<nat>): (e: nat)
    requires start <= j <= |s|
    ensures j <= e <= |s|
    ensures forall k :: j <= k < e ==> IsDigit(s[k])
    ensures most.Some? && j - start <= most.value ==> e - start <= most.value
    decreases |s| - j
  {
    if j < |s| && IsDigit(s[j]) && (most.None? || j - start < most.value) then RunEnd(s, start, j + 1, most)
    else j
  }

  /** Greedy match of `p` against `s` starting exactly at `i`. */
  function MatchAt(s: string, i: nat, p: Pattern): (r: Option<Match>)
    requires i <= |s|
    ensures r.Some? ==> i <= r.value.end <= |s|
    ensures r.Some? ==> |r.value.groups| == GroupCount(p)
    ensures r.Some? ==> forall k :: 0 <= k < |r.value.groups| ==> AllDigits(r.value.groups[k])
    ensures r.Some? && WellFormed(p) ==> forall k :: 0 <= k < |r.value.groups| ==> |r.value.groups[k]| >= 1
    decreases |p|
  {
    if p == [] then Some(Match(i, []))
    else
      assert WellFormed(p) ==> WellFormed(p[1..]) by {
        if WellFormed(p) {
          forall k | 0 <= k < |p[1..]| ensures p[1..][k].Digits? ==> p[1..][k].least >= 1 {
            assert p[1..][k] == p[k + 1];
          }
        }
      }
      match p[0]
      case Lit(c) => if i < |s| && s[i] == c then MatchAt(s, i + 1, p[1..]) else None
      case Opt(c) => if i < |s| && s[i] == c then MatchAt(s, i + 1, p[1..]) else MatchAt(s, i, p[1..])
      case Spaces => MatchAt(s, SkipSpaces(s, i), p[1..])
      case Digits(least, most) =>
        var j := RunEnd(s, i, i, most);
        if j - i < least then None
        else
          match MatchAt(s, j, p[1..])
          case None => None
          case Some(m) => Some(Match(m.end, [s[i..j]] + m.groups))
  }

  /** `s.match(p)`: the groups of the leftmost match at or after `i`. */
  function FirstMatchFrom(s: string, p: Pattern, i: nat): (r: Option<seq<string>>)
    requires i <= |s|
    ensures r.Some? ==> |r.value| == GroupCount(p)
    ensures r.Some? ==> forall k :: 0 <= k < |r.value| ==> AllDigits(r.value[k])
    ensures r.Some? && WellFormed(p) ==> forall k :: 0 <= k < |r.value| ==> |r.value[k]| >= 1
    decreases |s| - i
  {
    match MatchAt(s, i, p)
    case Some(m) => Some(m.groups)
    case None => if i == |s| then None else FirstMatchFrom(s, p, i + 1)
  }

  function FirstMatch(s: string, p: Pattern): (r: Option<seq<string>>)
    ensures r.Some? ==> |r.value| == GroupCount(p)
    ensures r.Some? ==> forall k :: 0 <= k < |r.value| ==> AllDigits(r.value[k])
    ensures r.Some? && WellFormed(p) ==> forall k :: 0 <= k < |r.value| ==> |r.value[k]| >= 1
  {
    FirstMatchFrom(s, p, 0)
  }

  /** An unbounded digit run stops exactly at the first character that is not a digit. */
  lemma {:induction false} RunEndOfDigits(s: string, start: nat, j: nat, k: nat)
    requires start <= j <= k <= |s|
    requires forall i :: j <= i < k ==> IsDigit(s[i])
    requires k == |s| || !IsDigit(s[k])
    ensures RunEnd(s, start, j, None) == k
    decreases k - j
  {
    if j < k {
      RunEndOfDigits(s, start, j + 1, k);
    }
  }

  /** A match that starts with the digit group `s[i..k]` captures it and continues at `k`. */
  lemma MatchDigitsAt(s: string, i: nat, k: nat, p: Pattern)
    requires i < k <= |s| && p != [] && p[0] == Digits(1, None)
    requires forall j :: i <= j < k ==> IsDigit(s[j])
    requires k == |s| || !IsDigit(s[k])
    ensures MatchAt(s, i, p) == match MatchAt(s, k, p[1..])
      case None => None
      case Some(m) => Some(Match(m.end, [s[i..k]] + m.groups))
  {
    RunEndOfDigits(s, i, i, k);
  }

  /** A pattern made only of `\s*` and optional characters matches anywhere and captures nothing. */
  lemma {:induction false} OptionalTailMatches(s: string, i: nat, p: Pattern)
    requires i <= |s|
    requires forall k :: 0 <= k < |p| ==> p[k] == Spaces || p[k].Opt?
    ensures MatchAt(s, i, p).Some? && MatchAt(s, i, p).value.groups == []
    decreases |p|
  {
    if p != [] {
      assert forall k :: 0 <= k < |p[1..]| ==> p[1..][k] == p[k + 1];
      match p[0]
      case Spaces => OptionalTailMatches(s, SkipSpaces(s, i), p[1..]);
      case Opt(c) =>
        if i < |s| && s[i] == c { OptionalTailMatches(s, i + 1, p[1..]); }
        else { OptionalTailMatches(s, i, p[1..]); }
    }
  }

  /** A pattern that matches at the very start is the leftmost match. */
  lemma MatchAtStart(s: string, p: Pattern)
    requires MatchAt(s, 0, p).Some?
    ensures FirstMatch(s, p) == Some(MatchAt(s, 0, p).value.groups)
  {
  }

  /** The match found is the leftmost one: it starts at some `k`, and nothing matches before `k`. */
  lemma {:induction false} FirstMatchIsLeftmost(s: string, p: Pattern, i: nat) returns (k: nat)
    requires i <= |s|
    requires FirstMatchFrom(s, p, i).Some?
    ensures i <= k <= |s| && MatchAt(s, k, p).Some?
    ensures MatchAt(s, k, p).value.groups == FirstMatchFrom(s, p, i).value
    ensures forall j :: i <= j < k ==> MatchAt(s, j, p).None?
    decreases |s| - i
  {
    if MatchAt(s, i, p).Some? {
      k := i;
    } else {
      k := FirstMatchIsLeftmost(s, p, i + 1);
    }
  }

  /** No match is reported only when no start position at or after `i` matches. */
  lemma {:induction false} NoFirstMatchMeansNone(s: string, p: Pattern, i: nat, k: nat)
    requires i <= k <= |s|
    requires FirstMatchFrom(s, p, i).None?
    ensures MatchAt(s, k, p).None?
    decreases |s| - i
  {
    if i < k {
      NoFirstMatchMeansNone(s, p, i + 1, k);
    }
  }

  /** Conversely, when no start position at or after `i` matches, no match is reported. */
  lemma {:induction false} NoMatchAnywhere(s: string, p: Pattern, i: nat)
    requires i <= |s|
    requires forall k :: i <= k <= |s| ==> MatchAt(s, k, p).None?
    ensures FirstMatchFrom(s, p, i).None?
    decreases |s| - i
  {
    if i < |s| {
      NoMatchAnywhere(s, p, i + 1);
    }
  }

  /** A literal the text does not contain can never be matched. */
  lemma {:induction false} MissingLiteralNeverMatches(s: string, i: nat, p: Pattern, c: char)
    requires i <= |s|
    requires Lit(c) in p && c !in s
    ensures MatchAt(s, i, p).None?
    decreases |p|
  {
    if p[0] != Lit(c) {
      assert Lit(c) in p[1..];
      match p[0]
      case Opt(d) =>
        if i < |s| && s[i] == d { MissingLiteralNeverMatches(s, i + 1, p[1..], c); }
        else { MissingLiteralNeverMatches(s, i, p[1..], c); }
      case Spaces => MissingLiteralNeverMatches(s, SkipSpaces(s, i), p[1..], c);
      case Digits(least, most) =>
        var j := RunEnd(s, i, i, most);
        if j - i >= least { MissingLiteralNeverMatches(s, j, p[1..], c); }
      case Lit(d) =>
        if i < |s| && s[i] == d { MissingLiteralNeverMatches(s, i + 1, p[1..], c); }
    }
  }

  lemma {:induction false} MissingLiteralNoMatchFrom(s: string, i: nat, p: Pattern, c: char)
    requires i <= |s|
    requires Lit(c) in p && c !in s
    ensures FirstMatchFrom(s, p, i).None?
    decreases |s| - i
  {
    MissingLiteralNeverMatches(s, i, p, c);
    if i < |s| {
      MissingLiteralNoMatchFrom(s, i + 1, p, c);
    }
  }

  /** A pattern that needs a digit cannot match a text without digits. */
  lemma {:induction false} NoDigitNeverMatches(s: string, i: nat, p: Pattern)
    requires i <= |s| && WellFormed(p) && GroupCount(p) > 0
    requires forall k :: 0 <= k < |s| ==> !IsDigit(s[k])
    ensures MatchAt(s, i, p).None?
    decreases |p|
  {
    var r := MatchAt(s, i, p);
    if r.Some? {
      var g := r.value.groups[0];
      assert |g| >= 1 && AllDigits(g);
      assert IsDigit(g[0]);
      NoDigitGroup(s, i, p);
    }
  }

  /** Every character a group captures is a character of the text. */
  lemma {:induction false} NoDigitGroup(s: string, i: nat, p: Pattern)
    requires i <= |s| && WellFormed(p)
    requires forall k :: 0 <= k < |s| ==> !IsDigit(s[k])
    ensures MatchAt(s, i, p).Some? ==> forall k :: 0 <= k < |MatchAt(s, i, p).value.groups| ==> MatchAt(s, i, p).value.groups[k] == []
    decreases |p|
  {
    if p != [] {
      assert WellFormed(p[1..]) by {
        forall k | 0 <= k < |p[1..]| ensures p[1..][k].Digits? ==> p[1..][k].least >= 1 {
          assert p[1..][k] == p[k + 1];
        }
      }
      match p[0]
      case Lit(c) => if i < |s| && s[i] == c { NoDigitGroup(s, i + 1, p[1..]); }
      case Opt(c) => if i < |s| && s[i] == c { NoDigitGroup(s, i + 1, p[1..]); } else { NoDigitGroup(s, i, p[1..]); }
      case Spaces => NoDigitGroup(s, SkipSpaces(s, i), p[1..]);
      case Digits(least, most) =>
        var j := RunEnd(s, i, i, most);
    }
  }

  lemma {:induction false} NoDigitNoMatchFrom(s: string, i: nat, p: Pattern)
    requires i <= |s| && WellFormed(p) && GroupCount(p) > 0
    requires forall k :: 0 <= k < |s| ==> !IsDigit(s[k])
    ensures FirstMatchFrom(s, p, i).None?
    decreases |s| - i
  {
    NoDigitNeverMatches(s, i, p);
    if i < |s| {
      NoDigitNoMatchFrom(s, i + 1, p);
    }
  }
}
