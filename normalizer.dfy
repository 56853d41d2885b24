/**
 * The invite-code normaliser of checker.py (`normalize_invite`): strip the
 * line, then run an unanchored regular-expression search whose only capture
 * group is the trailing run of `[A-Za-z0-9-]`, optionally followed by one '/'.
 */
module Normalizer {
  import opened Wrappers

  /** Python's `str.isspace`: the characters `str.strip()` removes. */
  predicate IsWhitespace(c: char)
  {
    c == ' ' || '\t' <= c <= '\r' || '\U{1C}' <= c <= '\U{1F}' || c == '\U{85}' || c == '\U{A0}'
    || c == '\U{1680}' || '\U{2000}' <= c <= '\U{200A}' || c == '\U{2028}' || c == '\U{2029}'
    || c == '\U{202F}' || c == '\U{205F}' || c == '\U{3000}'
  }

  /** The character class `[A-Za-z0-9-]` of the capture group. */
  predicate IsCodeChar(c: char)
  {
    'A' <= c <= 'Z' || 'a' <= c <= 'z' || '0' <= c <= '9' || c == '-'
  }

  predicate AllWhitespace(s: string)
  {
    forall k :: 0 <= k < |s| ==> IsWhitespace(s[k])
  }

  predicate AllCode(s: string)
  {
    forall k :: 0 <= k < |s| ==> IsCodeChar(s[k])
  }

  // ---------------------------------------------------------------------------
  // str.strip()
  // ---------------------------------------------------------------------------

  /** Number of leading whitespace characters of `s`. */
  function LeadingSpace(s: string): (i: nat)
    ensures i <= |s|
    ensures AllWhitespace(s[..i])
    ensures i < |s| ==> !IsWhitespace(s[i])
  {
    if s == [] || !IsWhitespace(s[0]) then 0
    else
      var i := 1 + LeadingSpace(s[1..]);
      assert s[..i] == [s[0]] + s[1..][..i - 1];
      i
  }

  /** Where `s` ends once the whitespace after position `lo` is cut off its end. */
  function TrailingEdge(s: string, lo: nat): (j: nat)
    requires lo <= |s|
    ensures lo <= j <= |s|
    ensures AllWhitespace(s[j..])
    ensures j > lo ==> !IsWhitespace(s[j - 1])
    decreases |s|
  {
    if |s| == lo || !IsWhitespace(s[|s| - 1]) then |s|
    else
      var j := TrailingEdge(s[..|s| - 1], lo);
      assert s[j..] == s[..|s| - 1][j..] + [s[|s| - 1]];
      j
  }

  /** `str.strip()`: `s` without its leading and trailing whitespace. */
  function Strip(s: string): (t: string)
    ensures |t| <= |s|
    ensures t == [] <==> AllWhitespace(s)
    ensures t != [] ==> !IsWhitespace(t[0]) && !IsWhitespace(t[|t| - 1])
  {
    var i := LeadingSpace(s);
    var j := TrailingEdge(s, i);
    assert AllWhitespace(s) ==> i == |s|;
    assert i == |s| ==> AllWhitespace(s) by {
      if i == |s| { assert s == s[..i]; }
    }
    assert i < |s| ==> j > i;
    s[i..j]
  }

  /** Strip removes whitespace and nothing else, from the two ends only. */
  lemma StripIsInfix(s: string)
    ensures exists i :: 0 <= i <= |s| - |Strip(s)| && Strip(s) == s[i..i + |Strip(s)|]
                        && AllWhitespace(s[..i]) && AllWhitespace(s[i + |Strip(s)|..])
  {
    var i := LeadingSpace(s);
    var j := TrailingEdge(s, i);
    assert Strip(s) == s[i..j] == s[i..i + |Strip(s)|];
  }

  /** A string with whitespace at neither end is its own strip. */
  lemma StripUnchanged(s: string)
    requires s != [] && !IsWhitespace(s[0]) && !IsWhitespace(s[|s| - 1])
    ensures Strip(s) == s
  {
    assert LeadingSpace(s) == 0;
    assert TrailingEdge(s, 0) == |s|;
  }

  /** Stripping is idempotent. */
  lemma StripTwice(s: string)
    ensures Strip(Strip(s)) == Strip(s)
  {
    if Strip(s) != [] {
      StripUnchanged(Strip(s));
    }
  }

  // ---------------------------------------------------------------------------
  // The regular expression, as a set of strings it accepts
  // ---------------------------------------------------------------------------

  /** Alternatives of `(?:https?://)?`. */
  function Schemes(): set<string>
  {
    {"", "http://", "https://"}
  }

  /** Alternatives of `(?:www\.)?`. */
  function WwwPrefixes(): set<string>
  {
    {"", "www."}
  }

  /** Alternatives of `(?:discord(?:app)?\.com/invite/|disco?d\.gg/)?`. */
  function HostPaths(): set<string>
  {
    {"", "discord.com/invite/", "discordapp.com/invite/", "discod.gg/", "discd.gg/"}
  }

  /** The optional part of the pattern in front of the capture group. */
  ghost predicate IsLinkPrefix(p: string)
  {
    exists a, w, h :: a in Schemes() && w in WwwPrefixes() && h in HostPaths() && p == a + w + h
  }

  /**
   * The pattern `<prefix>([A-Za-z0-9-]+)(?:/)?$` matches `t` starting at
   * position `i`, with `c` as the captured group.
   */
  ghost predicate MatchesAt(t: string, i: nat, c: string)
  {
    i <= |t| && c != [] && AllCode(c) &&
    exists p :: IsLinkPrefix(p) && (t[i..] == p + c || t[i..] == p + c + "/")
  }

  /** `re.search` reports the match that starts leftmost. */
  ghost predicate IsLeftmostMatch(t: string, i: nat, c: string)
  {
    MatchesAt(t, i, c) && forall j: nat, d :: j < i ==> !MatchesAt(t, j, d)
  }

  /** The last character of `s`, or of `s` with more in front when `s` is not empty. */
  lemma LastOfConcat(x: string, s: string)
    ensures s != [] ==> (x + s)[|x + s| - 1] == s[|s| - 1]
    ensures s == [] ==> x + s == x
  {
  }

  /** A scheme is empty or ends in '/'. */
  lemma SchemeEnd(a: string)
    requires a in Schemes()
    ensures a == [] || a[|a| - 1] == '/'
  {
    assert a == "" || a == "http://" || a == "https://";
  }

  /** A "www." part is empty or ends in '.'. */
  lemma WwwEnd(w: string)
    requires w in WwwPrefixes()
    ensures w == [] || w[|w| - 1] == '.'
  {
    assert w == "" || w == "www.";
  }

  /** A host path is empty or ends in '/'. */
  lemma HostPathEnd(h: string)
    requires h in HostPaths()
    ensures h == [] || h[|h| - 1] == '/'
  {
    assert h == "" || h == "discord.com/invite/" || h == "discordapp.com/invite/" || h == "discod.gg/" || h == "discd.gg/";
  }

  /** Every alternative in front of the group ends in '/' or '.', never in a code character. */
  lemma LinkPrefixEnd(p: string)
    requires IsLinkPrefix(p)
    ensures p == [] || p[|p| - 1] == '/' || p[|p| - 1] == '.'
  {
    var a, w, h :| a in Schemes() && w in WwwPrefixes() && h in HostPaths() && p == a + w + h;
    SchemeEnd(a);
    WwwEnd(w);
    HostPathEnd(h);
    LastOfConcat(a + w, h);
    LastOfConcat(a, w);
  }

  // ---------------------------------------------------------------------------
  // normalize_invite
  // ---------------------------------------------------------------------------

  /** `t` without one trailing '/', the part the group and `(?:/)?$` can cover. */
  function DropSlash(t: string): (b: string)
  {
    if t != [] && t[|t| - 1] == '/' then t[..|t| - 1] else t
  }

  /** Start of the longest suffix of `s` made of code characters. */
  function CodeRunStart(s: string): (k: nat)
    ensures k <= |s|
    ensures AllCode(s[k..])
    ensures k > 0 ==> !IsCodeChar(s[k - 1])
  {
    if s == [] || !IsCodeChar(s[|s| - 1]) then |s|
    else
      var k := CodeRunStart(s[..|s| - 1]);
      assert s[k..] == s[..|s| - 1][k..] + [s[|s| - 1]];
      k
  }

  /**
   * `normalize_invite`: the invite code in one line of invites.txt, or None.
   * The code is the longest run of code characters that ends the stripped line
   * (or ends it but for one '/'). A blank or whitespace-only line has none,
   * and a code is never empty.
   */
  function Normalize(line: string): (r: Option<string>)
    ensures AllWhitespace(line) ==> r.None?
    ensures r.Some? ==> r.value != [] && AllCode(r.value)
  {
    var t := Strip(line);
    if t == [] then None
    else
      var b := DropSlash(t);
      var k := CodeRunStart(b);
      if k == |b| then None else Some(b[k..])
  }

  /**
   * Where the code `Normalize` returns comes from: it ends the stripped line,
   * or ends it but for one '/', and is not preceded by another code
   * character. None exactly when that part of the line does not end in a
   * code character.
   */
  lemma NormalizeShape(line: string)
    ensures Normalize(line).Some? ==>
              var c, b := Normalize(line).value, DropSlash(Strip(line));
              |c| <= |b| && c == b[|b| - |c|..] && (|c| < |b| ==> !IsCodeChar(b[|b| - |c| - 1]))
    ensures Normalize(line).None? <==> DropSlash(Strip(line)) == [] || !IsCodeChar(Last(DropSlash(Strip(line))))
  {
  }

  function Last(s: string): char
    requires s != []
  {
    s[|s| - 1]
  }

  // ---------------------------------------------------------------------------
  // Normalize computes what re.search captures
  // ---------------------------------------------------------------------------

  /** The empty string is one alternative of the prefix (every group is optional). */
  lemma EmptyLinkPrefix()
    ensures IsLinkPrefix("")
  {
    assert "" in Schemes() && "" in WwwPrefixes() && "" in HostPaths() && "" == "" + "" + "";
  }

  /** Whatever follows the group in a match is at most one final '/'. */
  lemma CaptureEndsBody(t: string, j: nat, p: string, c: string)
    requires j <= |t| && c != [] && AllCode(c)
    requires t[j..] == p + c || t[j..] == p + c + "/"
    ensures j <= |DropSlash(t)| && DropSlash(t)[j..] == p + c
  {
    if t[j..] == p + c {
      assert t[|t| - 1] == t[j..][|t| - 1 - j] == c[|c| - 1];
    } else {
      assert t[|t| - 1] == t[j..][|t| - 1 - j] == '/';
      assert DropSlash(t)[j..] == t[j..][..|t| - 1 - j];
    }
  }

  /** A suffix of code characters starts no earlier than the final code run. */
  lemma RunBound(b: string, q: nat)
    requires q <= |b| && AllCode(b[q..])
    ensures CodeRunStart(b) <= q
  {
    forall i | q <= i < |b| ensures IsCodeChar(b[i]) {
      assert b[i] == b[q..][i - q];
    }
  }

  /** A code run preceded by '/', '.' or nothing, that ends `b`, is the final code run of `b` if it starts early enough. */
  lemma CaptureIsRun(b: string, j: nat, p: string, c: string)
    requires j <= |b| && b[j..] == p + c && c != [] && AllCode(c)
    requires p == [] || p[|p| - 1] == '/' || p[|p| - 1] == '.'
    ensures CodeRunStart(b) < |b|
    ensures j <= CodeRunStart(b) ==> c == b[CodeRunStart(b)..]
  {
    var q := j + |p|;
    assert b[q..] == (p + c)[|p|..] == c;
    RunBound(b, q);
    if p != [] {
      assert b[q - 1] == (p + c)[|p| - 1] == p[|p| - 1];
      CodeRunStartAt(b, q);
    }
  }

  /**
   * Any match captures a suffix of `DropSlash(t)` that lies inside its final
   * run of code characters; a match starting no later than that run captures
   * the whole run.
   */
  lemma MatchCapturesRun(t: string, j: nat, c: string)
    requires MatchesAt(t, j, c)
    ensures CodeRunStart(DropSlash(t)) < |DropSlash(t)|
    ensures j <= CodeRunStart(DropSlash(t)) ==> c == DropSlash(t)[CodeRunStart(DropSlash(t))..]
  {
    var p :| IsLinkPrefix(p) && (t[j..] == p + c || t[j..] == p + c + "/");
    LinkPrefixEnd(p);
    CaptureEndsBody(t, j, p, c);
    CaptureIsRun(DropSlash(t), j, p, c);
  }

  /** Among the positions where the pattern matches there is a leftmost one. */
  lemma LeftmostExists(t: string, n: nat, c: string)
    requires MatchesAt(t, n, c)
    ensures exists i: nat, d :: IsLeftmostMatch(t, i, d)
    decreases n
  {
    if forall j: nat, d :: j < n ==> !MatchesAt(t, j, d) {
      assert IsLeftmostMatch(t, n, c);
    } else {
      var j: nat, d :| j < n && MatchesAt(t, j, d);
      LeftmostExists(t, j, d);
    }
  }

  /** The final code run of `DropSlash(t)`, when there is one, is a match with an empty prefix. */
  lemma RunMatches(t: string)
    requires CodeRunStart(DropSlash(t)) < |DropSlash(t)|
    ensures MatchesAt(t, CodeRunStart(DropSlash(t)), DropSlash(t)[CodeRunStart(DropSlash(t))..])
  {
    var b := DropSlash(t);
    var m := CodeRunStart(b);
    EmptyLinkPrefix();
    if b == t {
      assert t[m..] == "" + b[m..];
    } else {
      assert t == b + "/";
      assert t[m..] == "" + b[m..] + "/";
    }
  }

  /** What `Normalize` returns, in terms of the final code run. */
  lemma NormalizeIsRun(line: string)
    ensures var b := DropSlash(Strip(line));
            Normalize(line) == if CodeRunStart(b) < |b| then Some(b[CodeRunStart(b)..]) else None
  {
  }

  /**
   * The pattern matches the stripped line somewhere exactly when `Normalize`
   * finds a code; the first step of `NormalizeIsLeftmostMatch`.
   */
  lemma NormalizeNoneIffNoMatch(line: string)
    ensures Normalize(line).None? <==> forall i: nat, c :: !MatchesAt(Strip(line), i, c)
  {
    var t := Strip(line);
    var b := DropSlash(t);
    NormalizeIsRun(line);
    forall i: nat, c | MatchesAt(t, i, c)
      ensures CodeRunStart(b) < |b|
    {
      MatchCapturesRun(t, i, c);
    }
    if CodeRunStart(b) < |b| {
      RunMatches(t);
    }
  }

  /** Every leftmost match captures the code `Normalize` returns. */
  lemma LeftmostCapturesCode(line: string, i: nat, c: string)
    requires IsLeftmostMatch(Strip(line), i, c)
    ensures Normalize(line) == Some(c)
  {
    var t := Strip(line);
    var b := DropSlash(t);
    NormalizeIsRun(line);
    MatchCapturesRun(t, i, c);
    RunMatches(t);
  }

  /**
   * `normalize_invite` returns exactly what `re.search` captures: None when the
   * pattern matches nowhere in the stripped line, and otherwise the group of
   * the leftmost match.
   */
  lemma NormalizeIsLeftmostMatch(line: string)
    ensures Normalize(line).None? <==> forall i: nat, c :: !MatchesAt(Strip(line), i, c)
    ensures forall i: nat, c :: IsLeftmostMatch(Strip(line), i, c) ==> Normalize(line) == Some(c)
    ensures Normalize(line).Some? ==> exists i: nat :: IsLeftmostMatch(Strip(line), i, Normalize(line).value)
  {
    NormalizeNoneIffNoMatch(line);
    forall i: nat, c | IsLeftmostMatch(Strip(line), i, c)
      ensures Normalize(line) == Some(c)
    {
      LeftmostCapturesCode(line, i, c);
    }
    if Normalize(line).Some? {
      var t := Strip(line);
      var b := DropSlash(t);
      NormalizeIsRun(line);
      RunMatches(t);
      LeftmostExists(t, CodeRunStart(b), b[CodeRunStart(b)..]);
    }
  }

  /** A code — non-empty, only code characters — normalises to itself. */
  lemma NormalizeCode(c: string)
    requires c != [] && AllCode(c)
    ensures Normalize(c) == Some(c)
  {
    StripUnchanged(c);
    assert DropSlash(c) == c;
  }

  /** Normalising a returned code gives the same code back. */
  lemma NormalizeIdempotent(line: string)
    requires Normalize(line).Some?
    ensures Normalize(Normalize(line).value) == Normalize(line)
  {
    NormalizeCode(Normalize(line).value);
  }

  /** The final code run of `b` is determined by its two defining facts. */
  lemma CodeRunStartAt(b: string, k: nat)
    requires k <= |b| && AllCode(b[k..]) && (k > 0 ==> !IsCodeChar(b[k - 1]))
    ensures CodeRunStart(b) == k
  {
    var m := CodeRunStart(b);
    forall i | k <= i < |b| ensures IsCodeChar(b[i]) {
      assert b[i] == b[k..][i - k];
    }
    forall i | m <= i < |b| ensures IsCodeChar(b[i]) {
      assert b[i] == b[m..][i - m];
    }
  }

  /** A line with no surrounding whitespace whose final code run starts at `k` normalises to that run. */
  lemma NormalizeFromRun(line: string, k: nat)
    requires line != [] && !IsWhitespace(line[0]) && !IsWhitespace(Last(line))
    requires k < |DropSlash(line)| && AllCode(DropSlash(line)[k..])
    requires k > 0 ==> !IsCodeChar(DropSlash(line)[k - 1])
    ensures Normalize(line) == Some(DropSlash(line)[k..])
  {
    StripUnchanged(line);
    CodeRunStartAt(DropSlash(line), k);
    NormalizeIsRun(line);
  }

  /** A short invite link. */
  lemma NormalizeShortLink()
    ensures Normalize("https://discord.gg/abc123") == Some("abc123")
  {
    var short := "https://discord.gg/abc123";
    assert DropSlash(short) == short;
    NormalizeFromRun(short, 19);
    assert short[19..] == "abc123";
  }

  /** A short invite link with "www." and no scheme. */
  lemma NormalizeWwwLink()
    ensures Normalize("www.discord.gg/abc-123") == Some("abc-123")
  {
    var www := "www.discord.gg/abc-123";
    assert DropSlash(www) == www;
    NormalizeFromRun(www, 15);
    assert www[15..] == "abc-123";
  }

  /** A long invite link with a final '/'. */
  lemma NormalizeLongLink()
    ensures Normalize("https://discord.com/invite/abc123/") == Some("abc123")
  {
    var long := "https://discord.com/invite/abc123/";
    assert DropSlash(long) == long[..|long| - 1];
    NormalizeFromRun(long, 27);
    assert long[..|long| - 1][27..] == "abc123";
  }

  /** The discordapp.com form of the long link. */
  lemma NormalizeAppLink()
    ensures Normalize("discordapp.com/invite/abc-123") == Some("abc-123")
  {
    var app := "discordapp.com/invite/abc-123";
    assert DropSlash(app) == app;
    NormalizeFromRun(app, 22);
    assert app[22..] == "abc-123";
  }

  /** A bare code is kept as it is. */
  lemma NormalizeBareCode()
    ensures Normalize("abc123") == Some("abc123")
  {
    var code := "abc123";
    assert AllCode(code);
    NormalizeCode(code);
  }

  /** A line whose stripped form ends in "//" has no code: only one '/' may follow it. */
  lemma NormalizeDoubleSlash(line: string)
    requires var t := Strip(line); |t| >= 2 && t[|t| - 1] == '/' && t[|t| - 2] == '/'
    ensures Normalize(line) == None
  {
    var t := Strip(line);
    assert Last(DropSlash(t)) == '/';
  }

  /** A whitespace-only line has no code. */
  lemma NormalizeWhitespaceLine()
    ensures Normalize(" \t\n") == None
  {
    var blank := " \t\n";
    assert IsWhitespace(blank[0]) && IsWhitespace(blank[1]) && IsWhitespace(blank[2]);
  }

  /**
   * Stripping a line whose part `[p..e)` has whitespace at neither end and is
   * followed only by whitespace keeps that part whole and ends there; of what
   * stands before it, only leading whitespace is lost.
   */
  lemma StripAround(line: string, p: nat, e: nat) returns (i: nat)
    requires p < e <= |line| && !IsWhitespace(line[p]) && !IsWhitespace(line[e - 1])
    requires AllWhitespace(line[e..])
    ensures i <= p && Strip(line) == line[i..e]
  {
    i := LeadingSpace(line);
    var j := TrailingEdge(line, i);
  }

  /**
   * Whatever stands in front of a code — a link prefix of the pattern, any
   * other text, leading whitespace — is ignored as long as it ends in a
   * character outside the code class; one '/' after the code is dropped, and
   * whitespace after it is stripped.
   */
  lemma NormalizeLink(prefix: string, code: string, slash: string, trail: string)
    requires prefix == [] || !IsCodeChar(Last(prefix))
    requires code != [] && AllCode(code) && (slash == "" || slash == "/")
    requires AllWhitespace(trail)
    ensures Normalize(prefix + code + slash + trail) == Some(code)
  {
    var line := prefix + code + slash + trail;
    var i := LinkStrip(prefix, code, slash, trail);
    var rest := prefix[i..];
    assert rest == [] || Last(rest) == Last(prefix);
    NormalizeStripped(line, rest, code, slash);
  }

  /** The strip of a link line keeps the code, the '/' and the end of the text in front. */
  lemma LinkStrip(prefix: string, code: string, slash: string, trail: string) returns (i: nat)
    requires code != [] && AllCode(code) && (slash == "" || slash == "/")
    requires AllWhitespace(trail)
    ensures i <= |prefix| && Strip(prefix + code + slash + trail) == prefix[i..] + code + slash
  {
    var line := prefix + code + slash + trail;
    var p, e := |prefix|, |prefix| + |code| + |slash|;
    assert line[p] == code[0];
    assert line[e - 1] == if slash == "" then Last(code) else '/';
    assert line[e..] == trail;
    i := StripAround(line, p, e);
    assert line[..e] == prefix + code + slash;
    assert line[i..e] == line[..e][i..];
    SuffixOfConcat(prefix + code, slash, i);
    SuffixOfConcat(prefix, code, i);
  }

  /** Dropping a prefix no longer than `x` from `x + y` drops it from `x`. */
  lemma SuffixOfConcat(x: string, y: string, i: nat)
    requires i <= |x|
    ensures (x + y)[i..] == x[i..] + y
  {
  }

  /** A line that strips to some text, a code and an optional '/' normalises to the code. */
  lemma NormalizeStripped(line: string, pre: string, code: string, slash: string)
    requires pre == [] || !IsCodeChar(Last(pre))
    requires code != [] && AllCode(code) && (slash == "" || slash == "/")
    requires Strip(line) == pre + code + slash
    ensures Normalize(line) == Some(code)
  {
    var b := DropSlash(Strip(line));
    assert b == pre + code by {
      if slash == "" {
        assert Strip(line) == pre + code;
      } else {
        assert Strip(line) == (pre + code) + "/";
      }
    }
    assert b[|pre|..] == code;
    assert |pre| > 0 ==> b[|pre| - 1] == Last(pre);
    CodeRunStartAt(b, |pre|);
  }
}
