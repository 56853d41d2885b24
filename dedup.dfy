/**
 * The two first-occurrence deduplication loops of checker.py's `main`: one over
 * the lines of proxies.txt, one over the invite codes of invites.txt.
 */
module Dedup {
  import opened Wrappers
  import Normalizer

  /** Position of the first occurrence of `x` in `xs`. */
  function FirstIndex(xs: seq<string>, x: string): (i: nat)
    requires x in xs
    ensures i < |xs| && xs[i] == x && x !in xs[..i]
  {
    if xs[0] == x then 0
    else
      var i := 1 + FirstIndex(xs[1..], x);
      assert xs[..i] == [xs[0]] + xs[1..][..i - 1];
      i
  }

  predicate NoDuplicates(d: seq<string>)
  {
    forall i, j :: 0 <= i < j < |d| ==> d[i] != d[j]
  }

  /** Every element of `d` occurs in `xs`, and `d` lists them by increasing first occurrence in `xs`. */
  predicate OrderedByFirstOccurrence(xs: seq<string>, d: seq<string>)
  {
    (forall x :: x in d ==> x in xs) &&
    forall i, j :: 0 <= i < j < |d| ==> FirstIndex(xs, d[i]) < FirstIndex(xs, d[j])
  }

  /**
   * `d` is `xs` with repeats removed, the first occurrence winning: the same
   * elements, each once, in the order in which they first appear in `xs`.
   */
  predicate IsFirstOccurrenceDedup(xs: seq<string>, d: seq<string>)
  {
    OrderedByFirstOccurrence(xs, d) && forall x :: x in xs ==> x in d
  }

  /** The keys of `lines`, in file order, repeats included; a line without a key is skipped. */
  function Keys(lines: seq<string>, key: string -> Option<string>): (keys: seq<string>)
    ensures |keys| <= |lines|
  {
    if lines == [] then []
    else
      var init, last := lines[..|lines| - 1], lines[|lines| - 1];
      match key(last)
      case None => Keys(init, key)
      case Some(k) => Keys(init, key) + [k]
  }

  /** The keys of the first n + 1 lines: those of the first n, then the key of line n if it has one. */
  lemma KeysPrefixStep(lines: seq<string>, key: string -> Option<string>, n: nat)
    requires n < |lines|
    ensures Keys(lines[..n + 1], key) ==
              match key(lines[n])
              case None => Keys(lines[..n], key)
              case Some(k) => Keys(lines[..n], key) + [k]
  {
    assert lines[..n + 1][..n] == lines[..n];
  }

  /** Each key of `Keys` is the key of some line. */
  lemma {:induction false} KeysAreKeys(lines: seq<string>, key: string -> Option<string>)
    ensures forall k :: k in Keys(lines, key) ==> exists i :: 0 <= i < |lines| && key(lines[i]) == Some(k)
  {
    if lines != [] {
      var init, last := lines[..|lines| - 1], lines[|lines| - 1];
      KeysAreKeys(init, key);
      forall k | k in Keys(lines, key) ensures exists i :: 0 <= i < |lines| && key(lines[i]) == Some(k) {
        if k in Keys(init, key) {
          var i :| 0 <= i < |init| && key(init[i]) == Some(k);
          assert lines[i] == init[i];
        } else {
          assert key(lines[|lines| - 1]) == Some(k);
        }
      }
    }
  }

  /** The key of every line that has one is among `Keys`. */
  lemma {:induction false} KeysHaveEveryKey(lines: seq<string>, key: string -> Option<string>)
    ensures forall i :: 0 <= i < |lines| && key(lines[i]).Some? ==> key(lines[i]).value in Keys(lines, key)
  {
    if lines != [] {
      var init := lines[..|lines| - 1];
      KeysHaveEveryKey(init, key);
      forall i | 0 <= i < |lines| && key(lines[i]).Some? ensures key(lines[i]).value in Keys(lines, key) {
        if i < |init| {
          assert lines[i] == init[i];
        }
      }
    }
  }

  /** Lines that are their own keys give themselves: nothing is skipped or rewritten. */
  lemma {:induction false} KeysOfOwnKeys(lines: seq<string>, key: string -> Option<string>)
    requires forall i :: 0 <= i < |lines| ==> key(lines[i]) == Some(lines[i])
    ensures Keys(lines, key) == lines
  {
    if lines != [] {
      var init, last := lines[..|lines| - 1], lines[|lines| - 1];
      assert forall i :: 0 <= i < |init| ==> init[i] == lines[i];
      assert key(last) == Some(last);
      KeysOfOwnKeys(init, key);
      assert lines == init + [last];
    }
  }

  /** The key of a line of proxies.txt: the stripped line, none for a blank line. */
  function ProxyKey(line: string): (k: Option<string>)
    ensures k.None? <==> Normalizer.AllWhitespace(line)
    ensures k.Some? ==> k.value != [] && Normalizer.Strip(k.value) == k.value
  {
    var proxy := Normalizer.Strip(line);
    Normalizer.StripTwice(line);
    if proxy == [] then None else Some(proxy)
  }

  /** The key of a line of invites.txt: its invite code, none when it has no (or an empty) code. */
  function InviteKey(line: string): (k: Option<string>)
    ensures k == Normalizer.Normalize(line)
    ensures k.Some? ==> k.value != [] && Normalizer.AllCode(k.value) && Normalizer.Normalize(k.value) == k
  {
    var code := Normalizer.Normalize(line);
    Normalizer.NormalizeShape(line);
    if code.Some? && code.value != [] then
      Normalizer.NormalizeCode(code.value);
      code
    else None
  }

  /** The non-blank stripped lines of proxies.txt, in file order, repeats included. */
  function Entries(lines: seq<string>): seq<string>
  {
    Keys(lines, ProxyKey)
  }

  /** The invite codes of the lines of invites.txt, in file order, repeats included. */
  function Codes(lines: seq<string>): seq<string>
  {
    Keys(lines, InviteKey)
  }

  /** Every entry of `Entries` is a non-blank line that stripping leaves unchanged. */
  lemma EntriesAreStripped(lines: seq<string>)
    ensures forall e :: e in Entries(lines) ==> e != [] && e == Normalizer.Strip(e)
  {
    KeysAreKeys(lines, ProxyKey);
    forall e | e in Entries(lines) ensures e != [] && e == Normalizer.Strip(e) {
      var i :| 0 <= i < |lines| && ProxyKey(lines[i]) == Some(e);
    }
  }

  /** Every entry of `Codes` is an invite code: non-empty, code characters only. */
  lemma CodesAreCodes(lines: seq<string>)
    ensures forall c :: c in Codes(lines) ==> c != [] && Normalizer.AllCode(c)
  {
    KeysAreKeys(lines, InviteKey);
    forall c | c in Codes(lines) ensures c != [] && Normalizer.AllCode(c) {
      var i :| 0 <= i < |lines| && InviteKey(lines[i]) == Some(c);
    }
  }

  /** Bare invite codes, one per line, are the codes of those lines. */
  lemma CodesOfBareCodes(lines: seq<string>)
    requires forall i :: 0 <= i < |lines| ==> lines[i] != [] && Normalizer.AllCode(lines[i])
    ensures Codes(lines) == lines
  {
    forall i | 0 <= i < |lines| ensures InviteKey(lines[i]) == Some(lines[i]) {
      Normalizer.NormalizeCode(lines[i]);
    }
    KeysOfOwnKeys(lines, InviteKey);
  }

  /** Appending to `xs` leaves the first occurrences of its elements where they were. */
  lemma {:induction false} FirstIndexAppend(xs: seq<string>, x: string, y: string)
    requires y in xs
    ensures FirstIndex(xs + [x], y) == FirstIndex(xs, y)
  {
    if xs[0] != y {
      assert (xs + [x])[1..] == xs[1..] + [x];
      FirstIndexAppend(xs[1..], x, y);
    }
  }

  /** One step of the loop: a new element goes to the end, a repeat is dropped. */
  lemma DedupStep(xs: seq<string>, d: seq<string>, x: string)
    requires IsFirstOccurrenceDedup(xs, d)
    ensures IsFirstOccurrenceDedup(xs + [x], if x in d then d else d + [x])
  {
    var ys := xs + [x];
    forall y | y in xs ensures FirstIndex(ys, y) == FirstIndex(xs, y) {
      FirstIndexAppend(xs, x, y);
    }
    if x !in d {
      var i := FirstIndex(ys, x);
      assert x !in xs;
      assert forall k :: 0 <= k < |xs| ==> ys[k] == xs[k];
      assert i == |xs|;
      var e := d + [x];
      forall i, j | 0 <= i < j < |e| ensures FirstIndex(ys, e[i]) < FirstIndex(ys, e[j]) {
        assert e[i] in xs && FirstIndex(xs, e[i]) < |xs|;
        if j < |d| {
          assert e[j] in xs;
        }
      }
    }
  }

  /**
   * Reference definition of both loops: `xs` read left to right, each element
   * kept unless an equal one was kept before.
   */
  function Dedupe(xs: seq<string>): (d: seq<string>)
    ensures |d| <= |xs|
  {
    if xs == [] then []
    else
      var init, last := xs[..|xs| - 1], xs[|xs| - 1];
      assert xs == init + [last];
      var d := Dedupe(init);
      if last in d then d else d + [last]
  }

  /** `Dedupe` on a list one longer: a new element goes to the end, a repeat is dropped. */
  lemma DedupeSnoc(xs: seq<string>, x: string)
    ensures Dedupe(xs + [x]) == if x in Dedupe(xs) then Dedupe(xs) else Dedupe(xs) + [x]
  {
    assert (xs + [x])[..|xs|] == xs;
  }

  /**
   * `Dedupe` is the first-occurrence dedup: the elements of `xs`, each once,
   * in the order of their first occurrence (and by DedupDetermined the only one).
   */
  lemma {:induction false} DedupeIsFirstOccurrence(xs: seq<string>)
    ensures IsFirstOccurrenceDedup(xs, Dedupe(xs))
    ensures NoDuplicates(Dedupe(xs))
  {
    if xs != [] {
      var init, last := xs[..|xs| - 1], xs[|xs| - 1];
      assert xs == init + [last];
      DedupeIsFirstOccurrence(init);
      DedupStep(init, Dedupe(init), last);
      DedupeSnoc(init, last);
    }
  }

  /**
   * The loop both deduplications of `main` share: read the lines in order,
   * skip a line without a key, keep the first occurrence of each key and
   * count the repeats.
   */
  method DedupBy(lines: seq<string>, key: string -> Option<string>) returns (deduped: seq<string>, dupes: nat)
    ensures deduped == Dedupe(Keys(lines, key))
    ensures dupes == |Keys(lines, key)| - |deduped|
  {
    deduped, dupes := [], 0;
    ghost var keys: seq<string> := [];
    for n := 0 to |lines|
      invariant keys == Keys(lines[..n], key)
      invariant deduped == Dedupe(keys)
      invariant dupes + |deduped| == |keys|
    {
      KeysPrefixStep(lines, key, n);
      var k := key(lines[n]);
      if k.None? {
        continue;
      }
      DedupeSnoc(keys, k.value);
      keys := keys + [k.value];
      if k.value !in deduped {
        deduped := deduped + [k.value];
      } else {
        dupes := dupes + 1;
      }
    }
    assert lines[..|lines|] == lines;
  }

  /**
   * The proxy loop of `main`: strip each line, skip blank ones, keep the first
   * occurrence of each proxy and count the repeats.
   */
  method DedupProxies(proxies: seq<string>) returns (dedupedProxies: seq<string>, pDupesCount: nat)
    ensures dedupedProxies == Dedupe(Entries(proxies))
    ensures pDupesCount == |Entries(proxies)| - |dedupedProxies|
  {
    dedupedProxies, pDupesCount := DedupBy(proxies, ProxyKey);
  }

  /**
   * The invite loop of `main`: normalise each line, skip lines with no code,
   * keep the first occurrence of each code and count the repeats.
   */
  method DedupInvites(invites: seq<string>) returns (dedupedInvites: seq<string>, dupesCount: nat)
    ensures dedupedInvites == Dedupe(Codes(invites))
    ensures dupesCount == |Codes(invites)| - |dedupedInvites|
  {
    dedupedInvites, dupesCount := DedupBy(invites, InviteKey);
  }

  /** Two lists ordered by first occurrence in `xs`, with the same elements, are equal. */
  lemma {:induction false} OrderedBySameElements(xs: seq<string>, d1: seq<string>, d2: seq<string>)
    requires OrderedByFirstOccurrence(xs, d1) && OrderedByFirstOccurrence(xs, d2)
    requires forall x :: x in d1 <==> x in d2
    ensures d1 == d2
    decreases |d1|
  {
    if d1 != [] {
      assert d1[0] in d2 && d2[0] in d1;
      var a, b := d1[0], d2[0];
      HeadComesFirst(xs, d1, b);
      HeadComesFirst(xs, d2, a);
      assert a == xs[FirstIndex(xs, a)] == b;
      forall x ensures x in d1[1..] <==> x in d2[1..] {
        OrderedRestHasNoHead(xs, d1, x);
        OrderedRestHasNoHead(xs, d2, x);
      }
      OrderedBySameElements(xs, d1[1..], d2[1..]);
      assert d1 == [a] + d1[1..] && d2 == [b] + d2[1..];
    } else if d2 != [] {
      HasHead(d2);
      assert false;
    }
  }

  lemma HasHead(d: seq<string>)
    requires d != []
    ensures exists x :: x in d
  {
    assert d[0] in d;
  }

  /** The head of a list ordered by first occurrence occurs first of all its elements. */
  lemma HeadComesFirst(xs: seq<string>, d: seq<string>, y: string)
    requires OrderedByFirstOccurrence(xs, d) && y in d
    ensures FirstIndex(xs, d[0]) <= FirstIndex(xs, y)
  {
    var j :| 0 <= j < |d| && d[j] == y;
    if j > 0 {
      assert FirstIndex(xs, d[0]) < FirstIndex(xs, d[j]);
    }
  }

  /** In a list ordered by first occurrence, the head does not occur again. */
  lemma OrderedRestHasNoHead(xs: seq<string>, d: seq<string>, x: string)
    requires OrderedByFirstOccurrence(xs, d) && d != []
    ensures OrderedByFirstOccurrence(xs, d[1..])
    ensures x in d[1..] <==> x in d && x != d[0]
  {
    if x in d[1..] {
      var j :| 0 <= j < |d[1..]| && d[1..][j] == x;
      assert FirstIndex(xs, d[0]) < FirstIndex(xs, d[j + 1]);
    }
    if x in d && x != d[0] {
      var j :| 0 <= j < |d| && d[j] == x;
      assert d[1..][j - 1] == x;
    }
    forall i, j | 0 <= i < j < |d[1..]| ensures FirstIndex(xs, d[1..][i]) < FirstIndex(xs, d[1..][j]) {
      assert d[1..][i] == d[i + 1] && d[1..][j] == d[j + 1];
    }
  }

  /** The contract of both loops pins their result down: there is one first-occurrence dedup of a list. */
  lemma DedupDetermined(xs: seq<string>, d1: seq<string>, d2: seq<string>)
    requires IsFirstOccurrenceDedup(xs, d1) && IsFirstOccurrenceDedup(xs, d2)
    ensures d1 == d2
  {
    OrderedBySameElements(xs, d1, d2);
  }

  /**
   * Codes "abc", "abc", "xyz" — or any two different codes, the first one
   * listed twice — leave both codes, in that order, and one repeat. Lines that
   * are bare codes give these codes: see CodesOfBareCodes.
   */
  lemma DedupExample(a: string, b: string, deduped: seq<string>, dupes: nat)
    requires a != b
    requires IsFirstOccurrenceDedup([a, a, b], deduped) && dupes + |deduped| == 3
    ensures deduped == [a, b] && dupes == 1
  {
    var codes, expected := [a, a, b], [a, b];
    assert FirstIndex(codes, a) == 0;
    assert codes[1..][1..] == [b];
    assert FirstIndex(codes, b) == 2;
    assert forall x :: x in codes ==> x == a || x == b;
    assert OrderedByFirstOccurrence(codes, expected);
    DedupDetermined(codes, deduped, expected);
  }
}

