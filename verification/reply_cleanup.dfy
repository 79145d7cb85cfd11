/**
 * The clean-up both LLM routes apply to the model's reply text: five global
 * `replace` calls and a `trim`, then a `match` that cuts out the span that
 * should be a JSON object. Each `replace` scans left to right and rewrites
 * non-overlapping leftmost matches, which is how the recursive definitions
 * below walk the string.
 */
module ReplyCleanup {
  import opened Wrappers
  import opened JsText

  // ---------------------------------------------------------------------
  // The five rewrites
  // ---------------------------------------------------------------------

  /** `replace(/```json\s*\/g, '')`: every opening fence goes, with the white space after it. */
  function StripJsonFences(s: string): string
    decreases |s|
  {
    if StartsWith(s, "```json") then StripJsonFences(s[SkipSpaces(s, 7)..])
    else if s == [] then []
    else [s[0]] + StripJsonFences(s[1..])
  }

  /** `replace(/```/g, '')`. */
  function StripFences(s: string): string
    decreases |s|
  {
    if StartsWith(s, "```") then StripFences(s[3..])
    else if s == [] then []
    else [s[0]] + StripFences(s[1..])
  }

  /** Index of the first line terminator at or after `i`, or `|s|`: where `.*$` stops in multiline mode. */
  function LineEnd(s: string, i: nat): (j: nat)
    requires i <= |s|
    ensures i <= j <= |s| && (j == |s| || IsLineTerminator(s[j]))
    ensures forall k :: i <= k < j ==> !IsLineTerminator(s[k])
    decreases |s| - i
  {
    if i == |s| || IsLineTerminator(s[i]) then i else LineEnd(s, i + 1)
  }

  /** `replace(/\/\/.*$/gm, '')`: from each "//" to the end of its line; the line break stays. */
  function StripComments(s: string): string
    decreases |s|
  {
    if StartsWith(s, "//") then StripComments(s[LineEnd(s, 2)..])
    else if s == [] then []
    else [s[0]] + StripComments(s[1..])
  }

  /**
   * `replace(/,\s*]/g, ']')` for `close == ']'` and `replace(/,\s*}/g, '}')`
   * for `close == '}'`: a comma followed by a white-space run that ends at
   * `close` becomes `close`. A comma that does not match is kept and the
   * scan resumes right after it.
   */
  function DropCommaBefore(s: string, close: char): string
    decreases |s|
  {
    if s == [] then []
    else if s[0] == ',' && SkipSpaces(s, 1) < |s| && s[SkipSpaces(s, 1)] == close then
      [close] + DropCommaBefore(s[SkipSpaces(s, 1) + 1..], close)
    else [s[0]] + DropCommaBefore(s[1..], close)
  }

  /** The two trailing-comma rewrites, brackets first. */
  function DropTrailingCommas(s: string): string {
    DropCommaBefore(DropCommaBefore(s, ']'), '}')
  }

  /**
   * The whole chain, in the order the routes apply it. Whatever the reply,
   * the cleaned text holds no code fence and has no white space at either end.
   */
  function Clean(s: string): (r: string)
    ensures !Contains(r, "```")
    ensures r == [] || (!IsSpace(r[0]) && !IsSpace(r[|r| - 1]))
  {
    var fenced := StripFences(StripJsonFences(s));
    var uncommented := StripComments(fenced);
    var commas := DropTrailingCommas(uncommented);
    StripFencesNoFence(StripJsonFences(s));
    StripCommentsKeepsNoFence(fenced);
    DropCommaKeepsNoFence(uncommented, ']');
    DropCommaKeepsNoFence(DropCommaBefore(uncommented, ']'), '}');
    TrimKeepsNoFence(commas);
    NoFenceNoContains(Trim(commas));
    Trim(commas)
  }

  // ---------------------------------------------------------------------
  // Object extraction: `match(/\{[\s\S]*\}/)`
  // ---------------------------------------------------------------------

  /** Index of the first `c` in `s` at or after `i`. */
  function IndexFrom(s: string, c: char, i: nat): (r: Option<nat>)
    requires i <= |s|
    ensures r.None? <==> c !in s[i..]
    ensures r.Some? ==> i <= r.value < |s| && s[r.value] == c && c !in s[i..r.value]
    decreases |s| - i
  {
    if i == |s| then None
    else if s[i] == c then Some(i)
    else
      assert s[i..] == [s[i]] + s[i + 1..];
      var r := IndexFrom(s, c, i + 1);
      assert r.Some? ==> s[i..r.value] == [s[i]] + s[i + 1..r.value];
      r
  }

  /** Index of the last `c` in `s[..j]`. */
  function LastIndexBefore(s: string, c: char, j: nat): (r: Option<nat>)
    requires j <= |s|
    ensures r.None? <==> c !in s[..j]
    ensures r.Some? ==> r.value < j && s[r.value] == c && c !in s[r.value + 1..j]
    decreases j
  {
    if j == 0 then None
    else if s[j - 1] == c then Some(j - 1)
    else
      assert s[..j] == s[..j - 1] + [s[j - 1]];
      var r := LastIndexBefore(s, c, j - 1);
      assert r.Some? ==> s[r.value + 1..j] == s[r.value + 1..j - 1] + [s[j - 1]];
      r
  }

  /**
   * The text the regular expression matches. The leftmost start that can
   * match is the first `{`, provided some `}` follows it (no later `{` can
   * then do better), and the greedy `[\s\S]*` backs off only as far as the
   * last `}`. The match exists exactly when some `{` comes before some `}`,
   * and it is then the span from the first `{` to the last `}`.
   */
  function ExtractObject(s: string): (r: Option<string>)
    ensures r.Some? <==> exists i, j :: 0 <= i < j < |s| && s[i] == '{' && s[j] == '}'
    ensures r.Some? ==> exists i, j :: (0 <= i < j < |s| && r.value == s[i..j + 1]
      && s[i] == '{' && '{' !in s[..i] && s[j] == '}' && '}' !in s[j + 1..])
  {
    var first := IndexFrom(s, '{', 0);
    var last := LastIndexBefore(s, '}', |s|);
    assert s[0..] == s && s[..|s|] == s;
    BracePairFound(s);
    if first.Some? && last.Some? && first.value < last.value then
      Some(s[first.value..last.value + 1])
    else
      None
  }

  /** Whenever some `{` comes before some `}`, the first `{` comes before the last `}`. */
  lemma BracePairFound(s: string)
    ensures (exists i, j :: 0 <= i < j < |s| && s[i] == '{' && s[j] == '}') ==>
      (IndexFrom(s, '{', 0).Some? && LastIndexBefore(s, '}', |s|).Some?
       && IndexFrom(s, '{', 0).value < LastIndexBefore(s, '}', |s|).value)
  {
    if exists i, j :: 0 <= i < j < |s| && s[i] == '{' && s[j] == '}' {
      var i, j :| 0 <= i < j < |s| && s[i] == '{' && s[j] == '}';
      OuterBraces(s, i, j);
    }
  }

  /** Any `{` before a `}` lies within the span from the first `{` to the last `}`. */
  lemma OuterBraces(s: string, i: nat, j: nat)
    requires i < j < |s| && s[i] == '{' && s[j] == '}'
    ensures IndexFrom(s, '{', 0).Some? && IndexFrom(s, '{', 0).value <= i
    ensures LastIndexBefore(s, '}', |s|).Some? && j <= LastIndexBefore(s, '}', |s|).value
  {
    assert s[0..] == s && s[..|s|] == s;
    assert s[i] in s && s[j] in s;
  }

  // ---------------------------------------------------------------------
  // No code fence survives
  // ---------------------------------------------------------------------

  /** No three backquotes in a row. */
  predicate NoFence(r: string) {
    forall i :: 0 <= i && i + 2 < |r| ==> !(r[i] == '`' && r[i + 1] == '`' && r[i + 2] == '`')
  }

  lemma NoFenceNoContains(r: string)
    requires NoFence(r)
    ensures !Contains(r, "```")
  {
    forall i | 0 <= i <= |r|
      ensures !OccursAt(r, "```", i)
    {
      if i + 3 <= |r| {
        assert r[i..i + 3][0] == r[i] && r[i..i + 3][1] == r[i + 1] && r[i..i + 3][2] == r[i + 2];
      }
    }
  }

  lemma NoFenceSlice(s: string, i: nat, j: nat)
    requires i <= j <= |s| && NoFence(s)
    ensures NoFence(s[i..j])
  {
    forall k | 0 <= k && k + 2 < j - i
      ensures !(s[i..j][k] == '`' && s[i..j][k + 1] == '`' && s[i..j][k + 2] == '`')
    {
      assert s[i..j][k] == s[i + k] && s[i..j][k + 1] == s[i + k + 1] && s[i..j][k + 2] == s[i + k + 2];
    }
  }

  /** Putting `c` in front of `t` makes a fence only if `c` and the first two characters of `t` are backquotes. */
  lemma NoFenceCons(c: char, t: string)
    requires NoFence(t)
    requires !(c == '`' && |t| >= 2 && t[0] == '`' && t[1] == '`')
    ensures NoFence([c] + t)
  {
    var r := [c] + t;
    forall k | 0 <= k && k + 2 < |r|
      ensures !(r[k] == '`' && r[k + 1] == '`' && r[k + 2] == '`')
    {
      if k > 0 {
        assert r[k] == t[k - 1] && r[k + 1] == t[k] && r[k + 2] == t[k + 1];
      }
    }
  }

  /**
   * Deleting every "```" leaves none: within a run of backquotes the scan
   * removes three at a time from its start, so at most two remain, and
   * runs stay separated by the characters between them.
   */
  lemma {:induction false} StripFencesNoFence(s: string)
    ensures NoFence(StripFences(s))
    ensures |StripFences(s)| >= 1 && StripFences(s)[0] == '`' ==> |s| >= 1 && s[0] == '`'
    ensures |StripFences(s)| >= 2 && StripFences(s)[0] == '`' && StripFences(s)[1] == '`'
      ==> |s| >= 2 && s[0] == '`' && s[1] == '`'
    decreases |s|
  {
    if StartsWith(s, "```") {
      StripFencesNoFence(s[3..]);
    } else if s != [] {
      var t := StripFences(s[1..]);
      StripFencesNoFence(s[1..]);
      NoFenceCons(s[0], t);
    }
  }

  /** Comment removal keeps a fence-free text fence-free: what it deletes is followed by a line break or the end. */
  lemma {:induction false} StripCommentsKeepsNoFence(s: string)
    requires NoFence(s)
    ensures NoFence(StripComments(s))
    ensures |StripComments(s)| >= 1 && StripComments(s)[0] == '`' ==> |s| >= 1 && s[0] == '`'
    ensures |StripComments(s)| >= 2 && StripComments(s)[0] == '`' && StripComments(s)[1] == '`'
      ==> |s| >= 2 && s[0] == '`' && s[1] == '`'
    decreases |s|
  {
    if StartsWith(s, "//") {
      var e := LineEnd(s, 2);
      NoFenceSlice(s, e, |s|);
      StripCommentsKeepsNoFence(s[e..]);
      assert StripComments(s) == StripComments(s[e..]);
    } else if s != [] {
      NoFenceSlice(s, 1, |s|);
      StripCommentsKeepsNoFence(s[1..]);
      NoFenceCons(s[0], StripComments(s[1..]));
    }
  }

  /** Replacing ",ws]" or ",ws}" by the bracket keeps a fence-free text fence-free. */
  lemma {:induction false} DropCommaKeepsNoFence(s: string, close: char)
    requires close != '`' && NoFence(s)
    ensures NoFence(DropCommaBefore(s, close))
    ensures |DropCommaBefore(s, close)| >= 1 && DropCommaBefore(s, close)[0] == '`' ==> |s| >= 1 && s[0] == '`'
    ensures |DropCommaBefore(s, close)| >= 2 && DropCommaBefore(s, close)[0] == '`' && DropCommaBefore(s, close)[1] == '`'
      ==> |s| >= 2 && s[0] == '`' && s[1] == '`'
    decreases |s|
  {
    if s != [] {
      if s[0] == ',' && SkipSpaces(s, 1) < |s| && s[SkipSpaces(s, 1)] == close {
        var j := SkipSpaces(s, 1);
        NoFenceSlice(s, j + 1, |s|);
        DropCommaKeepsNoFence(s[j + 1..], close);
        NoFenceCons(close, DropCommaBefore(s[j + 1..], close));
      } else {
        NoFenceSlice(s, 1, |s|);
        DropCommaKeepsNoFence(s[1..], close);
        NoFenceCons(s[0], DropCommaBefore(s[1..], close));
      }
    }
  }

  lemma TrimKeepsNoFence(s: string)
    requires NoFence(s)
    ensures NoFence(Trim(s))
  {
    var i, j :| 0 <= i <= j <= |s| && Trim(s) == s[i..j] && AllSpaces(s[..i]) && AllSpaces(s[j..]);
    NoFenceSlice(s, i, j);
  }

  // ---------------------------------------------------------------------
  // What each rewrite does to typical replies
  // ---------------------------------------------------------------------

  /** Text before the first backquote passes both fence rewrites unchanged. */
  lemma {:induction false} JsonFencesKeepPlainPrefix(b: string, t: string)
    requires '`' !in b
    ensures StripJsonFences(b + t) == b + StripJsonFences(t)
    decreases |b|
  {
    if b != [] {
      assert (b + t)[0] == b[0] && (b + t)[1..] == b[1..] + t;
      assert b[0] in b;
      assert !StartsWith(b + t, "```json");
      JsonFencesKeepPlainPrefix(b[1..], t);
      assert [b[0]] + b[1..] == b;
    } else {
      assert b + t == t;
    }
  }

  lemma {:induction false} FencesKeepPlainPrefix(b: string, t: string)
    requires '`' !in b
    ensures StripFences(b + t) == b + StripFences(t)
    decreases |b|
  {
    if b != [] {
      assert (b + t)[0] == b[0] && (b + t)[1..] == b[1..] + t;
      assert b[0] in b;
      assert !StartsWith(b + t, "```");
      FencesKeepPlainPrefix(b[1..], t);
      assert [b[0]] + b[1..] == b;
    } else {
      assert b + t == t;
    }
  }

  /**
   * A reply wrapped in a fenced code block comes out as the block's body:
   * "```json", the white space after it and the closing "```" all go.
   */
  lemma FencedReplyUnwrapped(ws: string, b: string)
    requires AllSpaces(ws) && '`' !in b
    requires b == [] || !IsSpace(b[0])
    ensures StripFences(StripJsonFences("```json" + ws + b + "```")) == b
  {
    var t := b + "```";
    assert "```json" + ws + b + "```" == "```json" + ws + t;
    assert t[0] == if b == [] then '`' else b[0];
    OpeningFenceDropped(ws, t);
    JsonFencesKeepPlainPrefix(b, "```");
    ClosingFenceFacts();
    assert StripJsonFences(t) == t;
    FencesKeepPlainPrefix(b, "```");
    assert b + [] == b;
  }

  lemma OpeningFenceDropped(ws: string, t: string)
    requires AllSpaces(ws) && t != [] && !IsSpace(t[0])
    ensures StripJsonFences("```json" + ws + t) == StripJsonFences(t)
  {
    var x := "```json" + ws + t;
    assert x[..7] == "```json";
    assert SkipSpaces(x, 7) == 7 + |ws| by {
      assert x[7..7 + |ws|] == ws && x[7 + |ws|] == t[0];
      SkipSpacesOver(x, 7, |ws|);
    }
    assert x[7 + |ws|..] == t;
  }

  lemma ClosingFenceFacts()
    ensures StripJsonFences("```") == "```"
    ensures StripFences("```") == []
  {
    assert !StartsWith("```", "```json");
    assert StripJsonFences("``") == "``" by {
      assert StripJsonFences("`") == "`" by { assert StripJsonFences([]) == []; }
    }
    assert "```"[..3] == "```" && "```"[3..] == [];
  }

  lemma {:induction false} SkipSpacesOver(s: string, i: nat, n: nat)
    requires i + n <= |s| && AllSpaces(s[i..i + n])
    requires i + n == |s| || !IsSpace(s[i + n])
    ensures SkipSpaces(s, i) == i + n
    decreases n
  {
    if n > 0 {
      assert s[i] == s[i..i + n][0];
      assert s[i + 1..i + n] == s[i..i + n][1..];
      SkipSpacesOver(s, i + 1, n - 1);
    }
  }

  /** Text without '/' passes comment removal unchanged. */
  lemma {:induction false} CommentsKeepPlainPrefix(p: string, t: string)
    requires '/' !in p
    ensures StripComments(p + t) == p + StripComments(t)
    decreases |p|
  {
    if p != [] {
      assert (p + t)[0] == p[0] && (p + t)[1..] == p[1..] + t;
      assert p[0] in p;
      assert !StartsWith(p + t, "//");
      CommentsKeepPlainPrefix(p[1..], t);
      assert [p[0]] + p[1..] == p;
    } else {
      assert p + t == t;
    }
  }

  /**
   * A "//" deletes the rest of its line and nothing else, whether it opens a
   * comment or sits inside a string value such as a URL.
   */
  lemma CommentRunsToLineEnd(p: string, c: string, rest: string)
    requires '/' !in p
    requires forall k :: 0 <= k < |c| ==> !IsLineTerminator(c[k])
    requires rest == [] || IsLineTerminator(rest[0])
    ensures StripComments(p + "//" + c + rest) == p + StripComments(rest)
  {
    var t := "//" + c + rest;
    assert p + "//" + c + rest == p + t;
    CommentsKeepPlainPrefix(p, t);
    CommentLineDropped(c, rest);
  }

  lemma CommentLineDropped(c: string, rest: string)
    requires forall k :: 0 <= k < |c| ==> !IsLineTerminator(c[k])
    requires rest == [] || IsLineTerminator(rest[0])
    ensures StripComments("//" + c + rest) == StripComments(rest)
  {
    var t := "//" + c + rest;
    assert t[..2] == "//";
    assert LineEnd(t, 2) == 2 + |c| by {
      LineEndOver(t, 2, |c|);
    }
    assert t[2 + |c|..] == rest;
  }

  lemma {:induction false} LineEndOver(s: string, i: nat, n: nat)
    requires i + n <= |s|
    requires forall k :: i <= k < i + n ==> !IsLineTerminator(s[k])
    requires i + n == |s| || IsLineTerminator(s[i + n])
    ensures LineEnd(s, i) == i + n
    decreases n
  {
    if n > 0 {
      LineEndOver(s, i + 1, n - 1);
    }
  }

  /** A URL inside a string value loses everything after "http:" on its line. */
  lemma UrlIsCut()
    ensures StripComments("{\"u\": \"http://a.cn\",\n\"n\": 1}") == "{\"u\": \"http:\n\"n\": 1}"
  {
    var p := "{\"u\": \"http:";
    var rest := "\n\"n\": 1}";
    UrlParts();
    CommentRunsToLineEnd(p, "a.cn\",", rest);
    CommentsKeepPlainPrefix(rest, []);
    assert rest + [] == rest;
    assert StripComments([]) == [];
  }

  lemma UrlParts()
    ensures "{\"u\": \"http://a.cn\",\n\"n\": 1}" == "{\"u\": \"http:" + "//" + "a.cn\"," + "\n\"n\": 1}"
    ensures "{\"u\": \"http:\n\"n\": 1}" == "{\"u\": \"http:" + "\n\"n\": 1}"
    ensures '/' !in "{\"u\": \"http:" && '/' !in "\n\"n\": 1}"
    ensures forall k :: 0 <= k < |"a.cn\","| ==> !IsLineTerminator("a.cn\","[k])
  {
  }

  /** Text without a comma passes a trailing-comma rewrite unchanged. */
  lemma {:induction false} CommaKeepsPlainPrefix(p: string, t: string, close: char)
    requires ',' !in p
    ensures DropCommaBefore(p + t, close) == p + DropCommaBefore(t, close)
    decreases |p|
  {
    if p != [] {
      assert (p + t)[0] == p[0] && (p + t)[1..] == p[1..] + t;
      CommaKeepsPlainPrefix(p[1..], t, close);
      assert [p[0]] + p[1..] == p;
    } else {
      assert p + t == t;
    }
  }

  /** A comma followed only by white space before the bracket is dropped with that white space. */
  lemma CommaBeforeCloseDropped(p: string, ws: string, close: char, rest: string)
    requires ',' !in p && AllSpaces(ws) && !IsSpace(close)
    ensures DropCommaBefore(p + [','] + ws + [close] + rest, close) == p + [close] + DropCommaBefore(rest, close)
  {
    var t := [','] + ws + [close] + rest;
    assert p + [','] + ws + [close] + rest == p + t;
    CommaKeepsPlainPrefix(p, t, close);
    assert SkipSpaces(t, 1) == 1 + |ws| by {
      assert t[1..1 + |ws|] == ws && t[1 + |ws|] == close;
      SkipSpacesOver(t, 1, |ws|);
    }
    assert t[2 + |ws|..] == rest;
    assert p + ([close] + DropCommaBefore(rest, close)) == p + [close] + DropCommaBefore(rest, close);
  }

  /**
   * The rewrite is a single pass, so it is not idempotent: of two commas
   * before a bracket only the second goes, and a second pass takes the other.
   */
  lemma TrailingCommasNotIdempotent()
    ensures DropTrailingCommas(",,]") == ",]"
    ensures DropTrailingCommas(",]") == "]"
  {
    assert SkipSpaces(",]", 1) == 1;
    assert DropCommaBefore(",]", ']') == "]" by {
      assert ",]"[2..] == [];
    }
    assert SkipSpaces(",,]", 1) == 1;
    assert ",,]"[1..] == ",]";
    assert DropCommaBefore(",,]", ']') == ",]";
    assert DropCommaBefore("]", '}') == "]" by {
      assert "]"[1..] == [];
    }
    assert SkipSpaces(",]", 1) == 1;
    assert DropCommaBefore(",]", '}') == ",]" by {
      assert ",]"[1..] == "]";
    }
  }
}
