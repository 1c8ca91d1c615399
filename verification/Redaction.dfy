/** Redacted diagnostics (`diagnostic` in src/exec/process.rs). Text is a sequence of characters;
    decoding the bytes is not part of this model. */
module Redaction {
  import opened TextTrim
  import opened Wrappers

  const MARK: string := "[redacted]"
  const PREFIXES: seq<string> := ["xoxp-", "xoxb-", "xapp-", "xoxe-"]

  predicate Ends(c: char) {
    IsSpace(c) || c == '\'' || c == '\"' || c == '<' || c == '>'
  }

  // ----- occurrences -----

  predicate OccursAt(text: string, p: string, i: int) {
    0 <= i <= |text| - |p| && text[i..i + |p|] == p
  }

  predicate Free(text: string, p: string) {
    forall i :: 0 <= i <= |text| ==> !OccursAt(text, p, i)
  }

  function Find(text: string, p: string): (r: Option<nat>)
    ensures r == None ==> Free(text, p)
    ensures r.Some? ==> OccursAt(text, p, r.value) && forall i :: 0 <= i < r.value ==> !OccursAt(text, p, i)
  {
    FindFrom(text, p, 0)
  }

  function FindFrom(text: string, p: string, from: nat): (r: Option<nat>)
    requires from <= |text|
    ensures r == None ==> forall i :: from <= i <= |text| ==> !OccursAt(text, p, i)
    ensures r.Some? ==> r.value >= from && OccursAt(text, p, r.value)
                        && forall i :: from <= i < r.value ==> !OccursAt(text, p, i)
    decreases |text| - from
  {
    if OccursAt(text, p, from) then Some(from)
    else if from == |text| then None
    else FindFrom(text, p, from + 1)
  }

  /** Where the token that starts at `from` ends. */
  function EndOf(text: string, from: nat): (end: nat)
    requires from <= |text|
    ensures from <= end <= |text| && (forall i :: from <= i < end ==> !Ends(text[i]))
            && (end < |text| ==> Ends(text[end]))
    decreases |text| - from
  {
    if from == |text| || Ends(text[from]) then from else EndOf(text, from + 1)
  }

  /** A token prefix: it cannot meet the mark, and holds nothing that ends a token. */
  predicate TokenPrefix(p: string) {
    p != "" && '[' !in p && p[0] !in MARK && forall i :: 0 <= i < |p| ==> !Ends(p[i])
  }

  /** `s`, laid `k` characters after the start of a mark, agrees with it wherever they overlap. */
  predicate Fits(s: string, k: int) {
    forall j :: 0 <= j < |s| && 0 <= k + j < |MARK| ==> s[j] == MARK[k + j]
  }

  /** Some occurrence of `s` could overlap a mark. */
  predicate Meets(s: string) {
    exists k :: -|s| < k < |MARK| && Fits(s, k)
  }

  predicate Apart(s: string) {
    s != "" && !Meets(s)
  }

  lemma TokenIsApart(p: string)
    requires TokenPrefix(p)
    ensures Apart(p)
  {
    forall k | -|p| < k < |MARK| ensures !Fits(p, k) {
      if k <= 0 {
        assert p[-k] in p;
      } else {
        assert MARK[k] in MARK;
      }
    }
  }

  lemma PrefixesAre()
    ensures forall p :: p in PREFIXES ==> TokenPrefix(p)
  {
    assert forall i :: 0 <= i < |PREFIXES| ==> PREFIXES[i][0] == 'x';
  }

  lemma Shift(a: string, b: string, p: string, i: int)
    requires i >= |a|
    ensures OccursAt(a + b, p, i) <==> OccursAt(b, p, i - |a|)
  {
    if 0 <= i - |a| <= |b| - |p| {
      assert (a + b)[i..i + |p|] == b[i - |a|..i - |a| + |p|];
    }
  }

  lemma Front(a: string, b: string, p: string, i: int)
    requires i + |p| <= |a|
    ensures OccursAt(a + b, p, i) <==> OccursAt(a, p, i)
  {
    if i >= 0 {
      assert (a + b)[i..i + |p|] == a[i..i + |p|];
    }
  }

  /** No occurrence of a text that cannot overlap a mark touches one. */
  lemma MarkIsBarrier(a: string, c: string, p: string, i: int)
    requires Apart(p) && |a| - |p| < i < |a| + |MARK|
    ensures !OccursAt(a + MARK + c, p, i)
  {
    var t := a + MARK + c;
    if OccursAt(t, p, i) {
      var k := i - |a|;
      forall j | 0 <= j < |p| && 0 <= k + j < |MARK| ensures p[j] == MARK[k + j] {
        assert t[i..i + |p|][j] == t[i + j];
      }
      assert Fits(p, k);
    }
  }

  /** Replacing a stretch by a mark frees nothing up and brings nothing in. */
  lemma MarkKeepsFree(text: string, start: nat, end: nat, q: string)
    requires Apart(q) && Free(text, q) && start <= end <= |text|
    ensures Free(text[..start] + MARK + text[end..], q)
  {
    var a, c := text[..start], text[end..];
    var t := a + MARK + c;
    forall i | 0 <= i <= |t| ensures !OccursAt(t, q, i) {
      if i + |q| <= start {
        Front(a, MARK + c, q, i);
        assert a + (MARK + c) == t;
        Front(a, text[start..], q, i);
        assert a + text[start..] == text;
      } else if i < start + |MARK| {
        MarkIsBarrier(a, c, q, i);
      } else {
        Shift(a + MARK, c, q, i);
        Shift(text[..end], c, q, i - start - |MARK| + end);
        assert text[..end] + c == text;
      }
    }
  }

  // ----- one prefix -----

  /** Reference form: mark the first token and go on after it. */
  function Redact(text: string, p: string): string
    requires p != ""
    decreases |text|
  {
    var found := Find(text, p);
    if found == None then text else
      var start := found.value;
      text[..start] + MARK
          + (if EndOf(text, start) > start then Redact(text[EndOf(text, start)..], p) else text[start..])
  }

  lemma {:induction false} TokenIsLong(text: string, p: string, start: nat)
    requires TokenPrefix(p) && OccursAt(text, p, start)
    ensures EndOf(text, start) >= start + |p|
  {
    assert forall j :: start <= j < start + |p| ==> text[j] == p[j - start];
  }

  /** No occurrence starts before `n`. */
  predicate NoneBefore(text: string, p: string, n: nat) {
    forall i :: 0 <= i < n ==> !OccursAt(text, p, i)
  }

  lemma Assoc(a: string, b: string, c: string)
    ensures a + b + c == a + (b + c)
  {
  }

  /** The loop of `diagnostic` for one prefix. It searches the whole text again each time and may
      lengthen it, yet ends: the text after the last mark shrinks by at least the prefix. */
  method RedactLoop(input: string, p: string) returns (text: string)
    requires TokenPrefix(p)
    ensures text == Redact(input, p) && Free(text, p)
  {
    text := input;
    ghost var head, tail := "", input;
    var found := Find(text, p);
    while found.Some?
      invariant found == Find(text, p) && text == head + tail && NoneBefore(text, p, |head|)
      invariant Redact(input, p) == head + Redact(tail, p)
      decreases |tail|
    {
      var start := found.value;
      var end := EndOf(text, start);
      ghost var next, rest := OneRound(head, tail, p, start);
      text := text[..start] + MARK + text[end..];
      head, tail := next, rest;
      found := Find(text, p);
    }
    NoneLeft(head, tail, p);
  }

  /** One round of the loop, seen from what is left. */
  lemma OneRound(head: string, tail: string, p: string, start: nat) returns (next: string, rest: string)
    requires TokenPrefix(p) && NoneBefore(head + tail, p, |head|) && Find(head + tail, p) == Some(start)
    ensures start <= |head + tail|
    ensures (head + tail)[..start] + MARK + (head + tail)[EndOf(head + tail, start)..] == next + rest
    ensures NoneBefore(next + rest, p, |next|) && |rest| < |tail|
    ensures head + Redact(tail, p) == next + Redact(rest, p)
  {
    FoundInTail(head, tail, p, start);
    EndIs(head, tail, start - |head|);
    var before, token;
    before, token, rest := NextToken(head, tail, p);
    Slices(head, before, token, rest);
    next := head + before + MARK;
    TokenIsApart(p);
    Assoc(head + before, token, rest);
    MarkedNone(head + before, token, rest, p);
  }

  /** The first token of what is left, in the whole text. */
  lemma NextToken(head: string, tail: string, p: string) returns (before: string, token: string, rest: string)
    requires TokenPrefix(p) && Find(tail, p).Some?
    ensures head + tail == head + before + (token + rest) && |before| == Find(tail, p).value && |rest| < |tail|
    ensures |before + token| == EndOf(tail, Find(tail, p).value)
    ensures head + Redact(tail, p) == head + before + MARK + Redact(rest, p)
  {
    before, token, rest := Tokened(tail, p);
    Assoc(head, before, token + rest);
    Assoc(head, before, MARK + Redact(rest, p));
    Assoc(head + before, MARK, Redact(rest, p));
  }

  lemma {:induction false} EndIs(head: string, tail: string, i: nat)
    requires i <= |tail|
    ensures EndOf(head + tail, |head| + i) == |head| + EndOf(tail, i)
  {
    EndShifts(head + tail, |head|, |head| + i);
    assert (head + tail)[|head|..] == tail;
  }

  lemma Slices(head: string, before: string, token: string, rest: string)
    ensures (head + before + (token + rest))[..|head + before|] == head + before
    ensures (head + before + (token + rest))[|head + before + token|..] == rest
  {
  }

  lemma FoundInTail(head: string, tail: string, p: string, start: nat)
    requires NoneBefore(head + tail, p, |head|) && Find(head + tail, p) == Some(start)
    ensures |head| <= start && Find(tail, p) == Some(start - |head|)
  {
    Shift(head, tail, p, start);
    var found := Find(tail, p);
    Shift(head, tail, p, |head| + found.value);
  }

  lemma {:induction false} NoneLeft(head: string, tail: string, p: string)
    requires p != "" && Free(head + tail, p)
    ensures head + Redact(tail, p) == head + tail
  {
    if Find(tail, p).Some? {
      Shift(head, tail, p, |head| + Find(tail, p).value);
    }
  }

  lemma MarkedSoFar(text: string, start: nat, end: nat, p: string)
    requires Apart(p) && start <= end <= |text|
    requires forall i :: 0 <= i < start ==> !OccursAt(text, p, i)
    ensures forall i :: 0 <= i < start + |MARK| ==> !OccursAt(text[..start] + MARK + text[end..], p, i)
  {
    var a, c := text[..start], text[end..];
    forall i | 0 <= i < start + |MARK| ensures !OccursAt(a + MARK + c, p, i) {
      if i + |p| <= start {
        Front(a, MARK + c, p, i);
        assert a + (MARK + c) == a + MARK + c;
        Front(a, text[start..], p, i);
        assert a + text[start..] == text;
      } else {
        MarkIsBarrier(a, c, p, i);
      }
    }
  }

  lemma {:induction false} RedactOnce(text: string, p: string, start: nat)
    requires TokenPrefix(p) && Find(text, p) == Some(start)
    ensures Redact(text, p) == text[..start] + MARK + Redact(text[EndOf(text, start)..], p)
  {
    TokenIsLong(text, p, start);
  }

  lemma {:induction false} EndShifts(text: string, done: nat, from: nat)
    requires done <= from <= |text|
    ensures EndOf(text[done..], from - done) == EndOf(text, from) - done
    decreases |text| - from
  {
    if from < |text| && !Ends(text[from]) {
      EndShifts(text, done, from + 1);
    }
  }

  /** The first token of a text, what stands before it and what follows it. */
  lemma Tokened(text: string, p: string) returns (before: string, token: string, rest: string)
    requires TokenPrefix(p) && Find(text, p).Some?
    ensures text == before + (token + rest) && |before| == Find(text, p).value && |rest| < |text|
    ensures |before + token| == EndOf(text, Find(text, p).value)
    ensures Redact(text, p) == before + (MARK + Redact(rest, p))
  {
    var start := Find(text, p).value;
    TokenIsLong(text, p, start);
    before, token, rest := SplitAt(text, start, EndOf(text, start));
    RedactOnce(text, p, start);
    Assoc(before, MARK, Redact(rest, p));
  }

  lemma SplitAt(text: string, start: nat, end: nat) returns (before: string, token: string, rest: string)
    requires start <= end <= |text|
    ensures before == text[..start] && rest == text[end..] && |before + token| == end
    ensures text == before + (token + rest)
  {
    before, token, rest := text[..start], text[start..end], text[end..];
  }

  /** What one round redacts: the first occurrence of the prefix and all that follows it up to white space, a
      quotation mark or an angle bracket; what stands before is kept, and what follows is redacted in turn. */
  lemma TokenIsRedacted(text: string, p: string) returns (before: string, token: string, rest: string)
    requires TokenPrefix(p) && !Free(text, p)
    ensures text == before + token + rest && p <= token && Redact(text, p) == before + MARK + Redact(rest, p)
    ensures forall i :: 0 <= i < |before| ==> !OccursAt(text, p, i)
    ensures forall c :: c in token ==> !IsSpace(c) && c !in "'\"<>"
    ensures rest != "" ==> IsSpace(rest[0]) || rest[0] in "'\"<>"
  {
    before, token, rest := Tokened(text, p);
    var start := Find(text, p).value;
    TokenIsLong(text, p, start);
    Assoc(before, token, rest);
    Assoc(before, MARK, Redact(rest, p));
    TokenText(text, before, token, rest, EndOf(text, start));
    assert text[start..start + |p|] == p;
    assert token[..|p|] == text[start..start + |p|];
  }

  lemma {:induction false} TokenText(text: string, before: string, token: string, rest: string, end: nat)
    requires text == before + token + rest && end == |before + token| == EndOf(text, |before|)
    ensures forall c :: c in token ==> !Ends(c)
    ensures rest != "" ==> Ends(rest[0])
  {
    forall c | c in token ensures !Ends(c) {
      var i :| 0 <= i < |token| && token[i] == c;
      assert text[|before| + i] == c;
    }
    if rest != "" {
      assert text[end] == rest[0];
    }
  }

  // ----- the rest of the pipeline -----

  /** `str::replace` of one secret. */
  function ReplaceAll(text: string, secret: string): string
    requires secret != ""
    decreases |text|
  {
    if text == "" then ""
    else if secret <= text then MARK + ReplaceAll(text[|secret|..], secret)
    else [text[0]] + ReplaceAll(text[1..], secret)
  }

  function InsertSecret(sorted: seq<string>, s: string): (r: seq<string>)
    ensures forall x :: x in r ==> x in sorted || x == s
  {
    if sorted == [] || |sorted[|sorted| - 1]| >= |s| then sorted + [s]
    else InsertSecret(sorted[..|sorted| - 1], s) + [sorted[|sorted| - 1]]
  }

  /** Longest first, so that a secret holding another goes as a whole; empty ones are dropped. */
  function Ordered(secrets: seq<string>): (r: seq<string>)
    ensures "" !in r
  {
    if secrets == [] then [] else
      var rest := Ordered(secrets[..|secrets| - 1]);
      if secrets[|secrets| - 1] == "" then rest else InsertSecret(rest, secrets[|secrets| - 1])
  }

  predicate LongestFirst(secrets: seq<string>) {
    forall i, j :: 0 <= i < j < |secrets| ==> |secrets[i]| >= |secrets[j]|
  }

  lemma {:induction false} InsertKeeps(sorted: seq<string>, s: string)
    requires LongestFirst(sorted)
    ensures LongestFirst(InsertSecret(sorted, s))
    ensures forall x :: x in InsertSecret(sorted, s) <==> x in sorted || x == s
  {
    if sorted != [] && |sorted[|sorted| - 1]| < |s| {
      var init, last := sorted[..|sorted| - 1], sorted[|sorted| - 1];
      InsertKeeps(init, s);
      var out := InsertSecret(init, s);
      assert sorted == init + [last];
      forall i | 0 <= i < |out| ensures |out[i]| >= |last| {
        assert out[i] in out;
        assert out[i] in init || out[i] == s;
      }
    }
  }

  /** The order is by length, longest first, over exactly the non-empty secrets. */
  lemma {:induction false} OrderedAre(secrets: seq<string>)
    ensures LongestFirst(Ordered(secrets))
    ensures forall x :: x in Ordered(secrets) <==> x in secrets && x != ""
  {
    if secrets != [] {
      var n := |secrets| - 1;
      OrderedAre(secrets[..n]);
      assert secrets == secrets[..n] + [secrets[n]];
      InsertKeeps(Ordered(secrets[..n]), secrets[n]);
    }
  }

  function ReplaceEach(text: string, secrets: seq<string>): string
    requires "" !in secrets
  {
    if secrets == [] then text else
      assert secrets[|secrets| - 1] in secrets;
      ReplaceAll(ReplaceEach(text, secrets[..|secrets| - 1]), secrets[|secrets| - 1])
  }

  function RedactEach(text: string, prefixes: seq<string>): string
    requires "" !in prefixes
  {
    if prefixes == [] then text else
      assert prefixes[|prefixes| - 1] in prefixes;
      Redact(RedactEach(text, prefixes[..|prefixes| - 1]), prefixes[|prefixes| - 1])
  }

  /** The text cut at every white space character. */
  function Cut(text: string): (parts: seq<string>)
    ensures |parts| >= 1
  {
    if text == "" then [""] else
      var c := text[|text| - 1];
      var rest := Cut(text[..|text| - 1]);
      if IsSpace(c) then rest + [""] else rest[..|rest| - 1] + [rest[|rest| - 1] + [c]]
  }

  /** `split_whitespace().join(" ")`: the non-empty parts, one space between. */
  function JoinParts(parts: seq<string>): string {
    if parts == [] then "" else
      var front, last := JoinParts(parts[..|parts| - 1]), parts[|parts| - 1];
      if last == "" then front else if front == "" then last else front + " " + last
  }

  function Line(text: string): string {
    JoinParts(Cut(text))
  }

  function LastChars(line: string, limit: nat): (t: string)
    ensures |t| <= limit && (|line| <= limit ==> t == line)
  {
    if |line| <= limit then line else line[|line| - limit..]
  }

  lemma FreeSlice(text: string, p: string, i: nat, j: nat)
    requires i <= j <= |text| && Free(text, p) && p != ""
    ensures Free(text[i..j], p)
  {
    forall k | 0 <= k <= j - i ensures !OccursAt(text[i..j], p, k) {
      if k + |p| <= j - i {
        var a, b := text[i..j][k..k + |p|], text[i + k..i + k + |p|];
        assert forall x :: 0 <= x < |p| ==> a[x] == b[x];
        assert a == b;
        assert !OccursAt(text, p, i + k);
      }
    }
  }

  /** The last part is the end of the text. */
  lemma {:induction false} LastPart(text: string)
    ensures var last := Cut(text)[|Cut(text)| - 1]; |last| <= |text| && text[|text| - |last|..] == last
  {
    if text != "" {
      var n := |text| - 1;
      LastPart(text[..n]);
      var rest := Cut(text[..n]);
      var last := rest[|rest| - 1];
      SliceMore(text, n - |last|);
    }
  }

  lemma SliceMore(text: string, m: nat)
    requires m < |text|
    ensures text[..|text| - 1][m..] + [text[|text| - 1]] == text[m..]
  {
  }

  /** Every part lies in the text, so it is free of what the text is free of. */
  lemma {:induction false} CutFree(text: string, p: string)
    requires Free(text, p) && p != ""
    ensures forall part :: part in Cut(text) ==> Free(part, p)
  {
    if text != "" {
      var n := |text| - 1;
      assert text[0..n] == text[..n] && text[0..0] == "";
      FreeSlice(text, p, 0, n);
      FreeSlice(text, p, 0, 0);
      CutFree(text[..n], p);
      LastPart(text);
      var parts := Cut(text);
      var last := parts[|parts| - 1];
      FreeSlice(text, p, |text| - |last|, |text|);
      assert text[|text| - |last|..|text|] == last;
      forall part | part in parts ensures Free(part, p) {
        assert part == last || part in Cut(text[..n]);
      }
    }
  }

  /** Joining with a space makes no text without one. */
  lemma SpaceIsBarrier(a: string, b: string, p: string)
    requires p != "" && ' ' !in p && Free(a, p) && Free(b, p)
    ensures Free(a + " " + b, p)
  {
    var t := a + " " + b;
    forall i | 0 <= i <= |t| ensures !OccursAt(t, p, i) {
      if i + |p| <= |a| {
        Front(a, " " + b, p, i);
        assert a + (" " + b) == t;
      } else if i > |a| {
        Shift(a + " ", b, p, i);
      } else if i + |p| <= |t| {
        assert t[i..i + |p|][|a| - i] == ' ';
        assert t[i..i + |p|][|a| - i] in t[i..i + |p|];
      }
    }
  }

  lemma {:induction false} JoinFree(parts: seq<string>, p: string)
    requires p != "" && ' ' !in p && forall part :: part in parts ==> Free(part, p)
    ensures Free(JoinParts(parts), p)
  {
    if parts != [] {
      var n := |parts| - 1;
      JoinFree(parts[..n], p);
      assert parts[n] in parts;
      if parts[n] != "" && JoinParts(parts[..n]) != "" {
        SpaceIsBarrier(JoinParts(parts[..n]), parts[n], p);
      }
    }
  }

  /** White-space joining and tail selection keep a text free of what holds no space. */
  lemma ShorteningKeepsFree(text: string, p: string, limit: nat)
    requires p != "" && ' ' !in p && Free(text, p)
    ensures Free(LastChars(Line(text), limit), p)
  {
    CutFree(text, p);
    JoinFree(Cut(text), p);
    var line := Line(text);
    if |line| > limit {
      FreeSlice(line, p, |line| - limit, |line|);
      assert line[|line| - limit..|line|] == line[|line| - limit..];
    }
  }

  /** The first loop: each configured secret in turn. */
  method ReplaceSecrets(text: string, ordered: seq<string>) returns (r: string)
    requires "" !in ordered
    ensures r == ReplaceEach(text, ordered)
  {
    r := text;
    for i := 0 to |ordered|
      invariant "" !in ordered[..i] && r == ReplaceEach(text, ordered[..i])
    {
      assert ordered[i] in ordered;
      assert ordered[..i + 1][..i] == ordered[..i];
      r := ReplaceAll(r, ordered[i]);
    }
    assert ordered[..|ordered|] == ordered;
  }

  /** The second loop: each token prefix in turn. */
  method RedactPrefixes(text: string, prefixes: seq<string>) returns (r: string)
    requires forall i :: 0 <= i < |prefixes| ==> TokenPrefix(prefixes[i])
    requires "" !in prefixes
    ensures r == RedactEach(text, prefixes)
  {
    r := text;
    for i := 0 to |prefixes|
      invariant "" !in prefixes[..i] && r == RedactEach(text, prefixes[..i])
    {
      assert prefixes[i] in prefixes;
      assert prefixes[..i + 1][..i] == prefixes[..i];
      r := RedactLoop(r, prefixes[i]);
    }
    assert prefixes[..|prefixes|] == prefixes;
  }

  /** What `diagnostic` shows of a text: the plain composition of its stages. */
  function Shown(text: string, limit: nat, secrets: seq<string>): string {
    PrefixesAre();
    LastChars(Line(RedactEach(ReplaceEach(text, Ordered(secrets)), PREFIXES)), limit)
  }

  /** `diagnostic` (src/exec/process.rs:52-70): the final text holds no token prefix and at most
      `limit` characters. */
  method Diagnostic(text: string, limit: nat, secrets: seq<string>) returns (r: string)
    ensures |r| <= limit && forall p :: p in ["xoxp-", "xoxb-", "xapp-", "xoxe-"] ==> Free(r, p)
    ensures r == Shown(text, limit, secrets)
  {
    PrefixesAre();
    var replaced := ReplaceSecrets(text, Ordered(secrets));
    var redacted := RedactPrefixes(replaced, PREFIXES);
    forall p | p in PREFIXES ensures Free(LastChars(Line(redacted), limit), p) {
      TokenIsApart(p);
      RedactEachFrees(replaced, PREFIXES, p);
      ShorteningKeepsFree(redacted, p, limit);
    }
    r := LastChars(Line(redacted), limit);
  }

  // ----- which secrets stay out of what is shown -----

  lemma MarkedNone(front: string, mid: string, back: string, p: string)
    requires Apart(p) && NoneBefore(front + mid + back, p, |front|)
    ensures NoneBefore(front + MARK + back, p, |front + MARK|)
  {
    var text := front + mid + back;
    MarkedSoFar(text, |front|, |front + mid|, p);
    assert text[..|front|] == front && text[|front + mid|..] == back;
  }

  lemma MarkedFree(front: string, mid: string, back: string, q: string)
    requires Apart(q) && Free(front + mid + back, q)
    ensures Free(front + MARK + back, q)
  {
    var text := front + mid + back;
    MarkKeepsFree(text, |front|, |front + mid|, q);
    assert text[..|front|] == front && text[|front + mid|..] == back;
  }

  lemma NextNone(front: string, c: char, rest: string, p: string)
    requires NoneBefore(front + ([c] + rest), p, |front|) && !(p <= [c] + rest)
    ensures NoneBefore(front + [c] + rest, p, |front + [c]|)
  {
    Assoc(front, [c], rest);
    Shift(front, [c] + rest, p, |front|);
  }

  /** Replacing a secret that cannot overlap a mark leaves none of it. */
  lemma {:induction false} ReplacedIsFree(front: string, text: string, s: string)
    requires Apart(s) && NoneBefore(front + text, s, |front|)
    ensures Free(front + ReplaceAll(text, s), s)
    decreases |text|
  {
    if text == "" {
      EndFree(front, s);
    } else if s <= text {
      var rest := text[|s|..];
      assert text == s + rest;
      Assoc(front, s, rest);
      MarkedNone(front, s, rest, s);
      ReplacedIsFree(front + MARK, rest, s);
      Assoc(front, MARK, ReplaceAll(rest, s));
    } else {
      var rest := text[1..];
      assert text == [text[0]] + rest;
      NextNone(front, text[0], rest, s);
      ReplacedIsFree(front + [text[0]], rest, s);
      Assoc(front, [text[0]], ReplaceAll(rest, s));
    }
  }

  lemma EndFree(front: string, s: string)
    requires s != "" && NoneBefore(front + "", s, |front|)
    ensures Free(front + "", s)
  {
  }

  /** Replacing any secret brings in nothing that cannot overlap a mark. */
  lemma {:induction false} ReplacingKeepsFree(front: string, text: string, s: string, q: string)
    requires s != "" && Apart(q) && Free(front + text, q)
    ensures Free(front + ReplaceAll(text, s), q)
    decreases |text|
  {
    if text != "" {
      if s <= text {
        var rest := text[|s|..];
        assert text == s + rest;
        Assoc(front, s, rest);
        MarkedFree(front, s, rest, q);
        ReplacingKeepsFree(front + MARK, rest, s, q);
        Assoc(front, MARK, ReplaceAll(rest, s));
      } else {
        var rest := text[1..];
        assert text == [text[0]] + rest;
        Assoc(front, [text[0]], rest);
        ReplacingKeepsFree(front + [text[0]], rest, s, q);
        Assoc(front, [text[0]], ReplaceAll(rest, s));
      }
    }
  }

  lemma {:induction false} ReplacedAlone(text: string, s: string)
    requires Apart(s)
    ensures Free(ReplaceAll(text, s), s)
  {
    ReplacedIsFree("", text, s);
    Unfronted(ReplaceAll(text, s));
  }

  lemma {:induction false} ReplacingAlone(text: string, s: string, q: string)
    requires s != "" && Apart(q) && Free(text, q)
    ensures Free(ReplaceAll(text, s), q)
  {
    Unfronted(text);
    ReplacingKeepsFree("", text, s, q);
    Unfronted(ReplaceAll(text, s));
  }

  lemma Unfronted(text: string)
    ensures "" + text == text
  {
  }

  lemma {:induction false} EachIsFree(text: string, secrets: seq<string>, s: string)
    requires "" !in secrets && Apart(s) && s in secrets
    ensures Free(ReplaceEach(text, secrets), s)
  {
    var n := |secrets| - 1;
    assert secrets[n] in secrets;
    assert secrets == secrets[..n] + [secrets[n]];
    if secrets[n] == s {
      ReplacedAlone(ReplaceEach(text, secrets[..n]), s);
    } else {
      EachIsFree(text, secrets[..n], s);
      ReplacingAlone(ReplaceEach(text, secrets[..n]), secrets[n], s);
    }
  }

  lemma {:induction false} RedactingKeepsFree(front: string, text: string, p: string, q: string)
    requires TokenPrefix(p) && Apart(q) && Free(front + text, q)
    ensures Free(front + Redact(text, p), q)
    decreases |text|
  {
    if Find(text, p).Some? {
      var before, token, rest := Tokened(text, p);
      Assoc(front, before, token + rest);
      Assoc(front + before, token, rest);
      MarkedFree(front + before, token, rest, q);
      RedactingKeepsFree(front + before + MARK, rest, p, q);
      Assoc(front + before, MARK, Redact(rest, p));
      Assoc(front, before, MARK + Redact(rest, p));
    }
  }

  lemma FirstNone(front: string, text: string, p: string, start: nat)
    requires NoneBefore(front + text, p, |front|) && NoneBefore(text, p, start)
    ensures NoneBefore(front + text, p, |front| + start)
  {
    forall i | |front| <= i < |front| + start ensures !OccursAt(front + text, p, i) {
      Shift(front, text, p, i);
    }
  }

  lemma {:induction false} RedactedIsFree(front: string, text: string, p: string)
    requires TokenPrefix(p) && NoneBefore(front + text, p, |front|)
    ensures Free(front + Redact(text, p), p)
    decreases |text|
  {
    TokenIsApart(p);
    if Find(text, p) == None {
      FirstNone(front, text, p, |text| + 1);
    } else {
      FirstNone(front, text, p, Find(text, p).value);
      var before, token, rest := Tokened(text, p);
      Assoc(front, before, token + rest);
      Assoc(front + before, token, rest);
      MarkedNone(front + before, token, rest, p);
      RedactedIsFree(front + before + MARK, rest, p);
      Assoc(front + before, MARK, Redact(rest, p));
      Assoc(front, before, MARK + Redact(rest, p));
    }
  }

  /** Redacting token prefixes leaves none of them, and brings in nothing that cannot overlap a mark. */
  lemma {:induction false} RedactEachFrees(text: string, prefixes: seq<string>, q: string)
    requires "" !in prefixes && (forall p :: p in prefixes ==> TokenPrefix(p))
    requires Apart(q) && (Free(text, q) || q in prefixes)
    ensures Free(RedactEach(text, prefixes), q)
  {
    if prefixes != [] {
      var n := |prefixes| - 1;
      assert prefixes == prefixes[..n] + [prefixes[n]];
      assert prefixes[n] in prefixes;
      var before := RedactEach(text, prefixes[..n]);
      Unfronted(before);
      Unfronted(Redact(before, prefixes[n]));
      if q == prefixes[n] {
        RedactedIsFree("", before, q);
      } else {
        RedactEachFrees(text, prefixes[..n], q);
        RedactingKeepsFree("", before, prefixes[n], q);
      }
    }
  }

  // ----- the joined line -----

  /** Blanks are single spaces. */
  predicate Lined(t: string) {
    && (forall i :: 0 <= i < |t| && IsSpace(t[i]) ==> t[i] == ' ')
    && forall i :: 0 <= i < |t| - 1 && t[i] == ' ' ==> t[i + 1] != ' '
  }

  /** `text` has the characters of `t`, and some blank for each of its spaces. */
  predicate Blanked(text: string, t: string) {
    |text| == |t| && forall i :: 0 <= i < |t| ==> if t[i] == ' ' then IsSpace(text[i]) else text[i] == t[i]
  }

  lemma {:induction false} LastPartEnds(text: string)
    requires text != ""
    ensures (Cut(text)[|Cut(text)| - 1] == "") == IsSpace(text[|text| - 1])
  {
  }

  /** Blanks come out as single spaces, and one at the end is dropped. */
  lemma {:induction false} LineOf(text: string, t: string)
    requires Blanked(text, t) && Lined(t) && t != "" && t[0] != ' '
    ensures Line(text) == if t[|t| - 1] == ' ' then t[..|t| - 1] else t
  {
    var n := |t| - 1;
    if n == 0 {
      OneChar(text, t);
    } else {
      LineOf(text[..n], t[..n]);
      if t[n] == ' ' {
        BlankDropped(text);
      } else {
        CharJoins(text);
        if t[n - 1] == ' ' {
          assert text[..n][n - 1] == text[n - 1];
          assert t[..n][..n - 1] + " " + [t[n]] == t;
        } else {
          assert t[..n] + [t[n]] == t;
        }
      }
    }
  }

  lemma OneChar(text: string, t: string)
    requires Blanked(text, t) && |t| == 1 && t[0] != ' ' && Lined(t)
    ensures Line(text) == t
  {
    assert text[..0] == "" && Cut("") == [""];
    assert "" + [text[0]] == text;
    assert text == t && Cut(text) == [t];
    assert [t][..0] == [] && JoinParts([]) == "";
    assert JoinParts([t]) == t;
  }

  lemma BlankDropped(text: string)
    requires text != "" && IsSpace(text[|text| - 1])
    ensures Line(text) == Line(text[..|text| - 1])
  {
    var rest := Cut(text[..|text| - 1]);
    assert (rest + [""])[..|rest|] == rest;
  }

  /** A character goes on its word, or starts one after a blank. */
  lemma CharJoins(text: string)
    requires |text| >= 2 && !IsSpace(text[|text| - 1])
    ensures var n := |text| - 1;
            Line(text) == if IsSpace(text[n - 1]) && Line(text[..n]) != "" then Line(text[..n]) + " " + [text[n]]
                          else Line(text[..n]) + [text[n]]
  {
    var n := |text| - 1;
    var rest := Cut(text[..n]);
    var front, last := rest[..|rest| - 1], rest[|rest| - 1];
    LastPartEnds(text[..n]);
    assert (front + [last + [text[n]]])[..|front|] == front;
  }

  /** What is shown has single spaces for blanks. */
  lemma {:induction false} LineIsLined(text: string)
    ensures Lined(Line(text)) && (Line(text) != "" ==> Line(text)[|Line(text)| - 1] != ' ')
  {
    PartsUnblank(text);
    JoinIsLined(Cut(text));
  }

  predicate Unblank(part: string) {
    forall i :: 0 <= i < |part| ==> !IsSpace(part[i])
  }

  lemma {:induction false} PartsUnblank(text: string)
    ensures forall part :: part in Cut(text) ==> Unblank(part)
  {
    if text != "" {
      PartsUnblank(text[..|text| - 1]);
      var rest := Cut(text[..|text| - 1]);
      assert rest[|rest| - 1] in rest;
      forall part | part in Cut(text) ensures Unblank(part) {
        assert part in rest || part == "" || part == rest[|rest| - 1] + [text[|text| - 1]];
      }
    }
  }

  lemma {:induction false} JoinIsLined(parts: seq<string>)
    requires forall part :: part in parts ==> Unblank(part)
    ensures Lined(JoinParts(parts)) && (JoinParts(parts) != "" ==> JoinParts(parts)[|JoinParts(parts)| - 1] != ' ')
  {
    if parts != [] {
      var n := |parts| - 1;
      JoinIsLined(parts[..n]);
      assert parts[n] in parts && Unblank(parts[n]);
      assert IsSpace(' ');
    }
  }

  // ----- exactly which secrets stay out -----

  predicate TokenFree(s: string) {
    forall p :: p in PREFIXES ==> Free(s, p)
  }

  /** A secret that could still be shown: it has single spaces for blanks and no token prefix, and it either has
      a space, which the join may make of another blank, or can overlap a mark. */
  predicate Exposed(s: string) {
    Lined(s) && TokenFree(s) && (' ' in s || Meets(s))
  }

  lemma HoldsPart(text: string, s: string, p: string, i: int, j: int)
    requires OccursAt(text, s, i) && OccursAt(s, p, j)
    ensures OccursAt(text, p, i + j)
  {
    forall x | 0 <= x < |p| ensures text[i + j + x] == p[x] {
      assert text[i..i + |s|][j + x] == text[i + j + x];
      assert s[j..j + |p|][x] == s[j + x];
    }
    assert text[i + j..i + j + |p|] == p;
  }

  lemma LinedPart(text: string, s: string, i: int)
    requires Lined(text) && OccursAt(text, s, i)
    ensures Lined(s)
  {
    forall j | 0 <= j < |s| ensures s[j] == text[i + j] {
      assert text[i..i + |s|][j] == text[i + j];
    }
  }

  lemma LinedEnd(line: string, limit: nat)
    requires Lined(line)
    ensures Lined(LastChars(line, limit))
  {
  }

  /** A secret that is not exposed is never shown. */
  lemma StaysOut(text: string, limit: nat, secrets: seq<string>, s: string)
    requires s != "" && s in secrets && !Exposed(s)
    ensures Free(Shown(text, limit, secrets), s)
  {
    PrefixesAre();
    OrderedAre(secrets);
    var replaced := ReplaceEach(text, Ordered(secrets));
    var redacted := RedactEach(replaced, PREFIXES);
    if !Lined(s) {
      LineIsLined(redacted);
      LinedEnd(Line(redacted), limit);
      forall i | 0 <= i <= |Shown(text, limit, secrets)| ensures !OccursAt(Shown(text, limit, secrets), s, i) {
        if OccursAt(Shown(text, limit, secrets), s, i) {
          LinedPart(Shown(text, limit, secrets), s, i);
        }
      }
    } else if !TokenFree(s) {
      var p :| p in PREFIXES && !Free(s, p);
      TokenIsApart(p);
      RedactEachFrees(replaced, PREFIXES, p);
      ShorteningKeepsFree(redacted, p, limit);
      FreeOfWhole(Shown(text, limit, secrets), s, p);
    } else {
      EachIsFree(text, Ordered(secrets), s);
      RedactEachFrees(replaced, PREFIXES, s);
      ShorteningKeepsFree(redacted, s, limit);
    }
  }

  lemma FreeOfWhole(text: string, s: string, p: string)
    requires Free(text, p) && !Free(s, p)
    ensures Free(text, s)
  {
    var j :| 0 <= j <= |s| && OccursAt(s, p, j);
    forall i | 0 <= i <= |text| ensures !OccursAt(text, s, i) {
      if OccursAt(text, s, i) {
        HoldsPart(text, s, p, i, j);
      }
    }
  }

  lemma {:induction false} NothingReplaced(text: string, s: string)
    requires s != "" && Free(text, s)
    ensures ReplaceAll(text, s) == text
  {
    if text != "" {
      assert !OccursAt(text, s, 0);
      assert text[1..|text|] == text[1..];
      FreeSlice(text, s, 1, |text|);
      NothingReplaced(text[1..], s);
    }
  }

  lemma {:induction false} NothingRedacted(text: string, prefixes: seq<string>)
    requires "" !in prefixes && forall p :: p in prefixes ==> Free(text, p)
    ensures RedactEach(text, prefixes) == text
  {
    if prefixes != [] {
      assert prefixes[|prefixes| - 1] in prefixes;
      NothingRedacted(text, prefixes[..|prefixes| - 1]);
    }
  }

  lemma OneOrdered(s: string)
    requires s != ""
    ensures Ordered([s]) == [s]
  {
    assert [s][..0] == [];
    assert [] + [s] == [s];
  }

  lemma {:induction false} OneReplaced(text: string, s: string)
    requires s != ""
    ensures ReplaceEach(text, [s]) == ReplaceAll(text, s)
  {
    assert [s][..0] == [];
  }

  // ----- shown through a space -----

  function Tabs(s: string): string {
    seq(|s|, i requires 0 <= i < |s| => if s[i] == ' ' then '\t' else s[i])
  }

  lemma SpacedIsShown(s: string) returns (text: string)
    requires Lined(s) && TokenFree(s) && ' ' in s
    ensures !Free(Shown(text, |s| + 2, [s]), s)
  {
    text := "." + Tabs(s) + ".";
    TabsAreKept(s);
    TabsAreJoined(s);
    Framed(s);
  }

  /** No stage before the join changes it. */
  lemma TabsAreKept(s: string)
    requires TokenFree(s) && ' ' in s
    ensures "" !in PREFIXES
            && RedactEach(ReplaceEach("." + Tabs(s) + ".", Ordered([s])), PREFIXES) == "." + Tabs(s) + "."
  {
    var text := "." + Tabs(s) + ".";
    PrefixesAre();
    OneOrdered(s);
    OneReplaced(text, s);
    TabsHideIt(s);
    NothingReplaced(text, s);
    forall p | p in PREFIXES ensures Free(text, p) {
      DotsKeepFree(s, p);
    }
    NothingRedacted(text, PREFIXES);
  }

  lemma TabsAreJoined(s: string)
    requires Lined(s)
    ensures Line("." + Tabs(s) + ".") == "." + s + "."
  {
    assert IsSpace('\t') && !IsSpace('.');
    LinedBetween(s);
    LineOf("." + Tabs(s) + ".", "." + s + ".");
  }

  lemma Framed(s: string)
    ensures OccursAt("." + s + ".", s, 1)
  {
    assert ("." + s + ".")[1..1 + |s|] == s;
  }

  lemma LinedBetween(s: string)
    requires Lined(s)
    ensures Lined("." + s + ".")
  {
    var t := "." + s + ".";
    forall i | 0 <= i < |t| && IsSpace(t[i]) ensures t[i] == ' ' {
      assert i != 0 && i != |t| - 1 ==> t[i] == s[i - 1];
    }
    forall i | 0 <= i < |t| - 1 && t[i] == ' ' ensures t[i + 1] != ' ' {
      assert t[i] == s[i - 1];
      assert i + 1 != |t| - 1 ==> t[i + 1] == s[i];
    }
  }

  lemma TabsHideIt(s: string)
    requires ' ' in s
    ensures Free("." + Tabs(s) + ".", s)
  {
    var text := "." + Tabs(s) + ".";
    var j :| 0 <= j < |s| && s[j] == ' ';
    assert forall x :: 0 <= x < |text| ==> text[x] != ' ';
    forall i | 0 <= i <= |text| - |s| ensures !OccursAt(text, s, i) {
      assert text[i..i + |s|][j] == text[i + j];
    }
  }

  lemma DotsKeepFree(s: string, p: string)
    requires TokenPrefix(p) && Free(s, p) && p in PREFIXES
    ensures Free("." + Tabs(s) + ".", p)
  {
    var text := "." + Tabs(s) + ".";
    PrefixChars(p);
    assert IsSpace('\t');
    forall i | 0 <= i <= |text| ensures !OccursAt(text, p, i) {
      if OccursAt(text, p, i) {
        WithinDots(s, p, i);
      }
    }
  }

  /** An occurrence of a prefix keeps clear of the dots and the tabs. */
  lemma WithinDots(s: string, p: string, i: nat)
    requires OccursAt("." + Tabs(s) + ".", p, i) && p != ""
    requires forall x :: 0 <= x < |p| ==> p[x] != '.' && p[x] != '\t'
    ensures i >= 1 && OccursAt(s, p, i - 1)
  {
    var text := "." + Tabs(s) + ".";
    forall x | 0 <= x < |p| ensures text[i + x] == p[x] {
      assert text[i..i + |p|][x] == text[i + x];
    }
    assert text[i + 0] == p[0] && text[i + (|p| - 1)] == p[|p| - 1];
    forall x | 0 <= x < |p| ensures s[i - 1 + x] == p[x] {
      assert text[i + x] == Tabs(s)[i + x - 1];
    }
    assert s[i - 1..i - 1 + |p|] == p;
  }

  lemma PrefixChars(p: string)
    requires p in PREFIXES
    ensures forall x :: 0 <= x < |p| ==> p[x] != '.'
  {
  }

  // ----- shown at a mark -----

  lemma NoBlankLine(text: string)
    requires text != "" && Unblank(text)
    ensures Line(text) == text
  {
    assert IsSpace(' ');
    LineOf(text, text);
  }

  /** A mark between two texts free of a token prefix brings none in. */
  lemma MarkBetween(a: string, c: string, p: string)
    requires TokenPrefix(p) && Free(a, p) && Free(c, p)
    ensures Free(a + MARK + c, p)
  {
    TokenIsApart(p);
    var t := a + MARK + c;
    forall i | 0 <= i <= |t| ensures !OccursAt(t, p, i) {
      if i + |p| <= |a| {
        Assoc(a, MARK, c);
        Front(a, MARK + c, p, i);
      } else if i >= |a + MARK| {
        Shift(a + MARK, c, p, i);
      } else {
        MarkIsBarrier(a, c, p, i);
      }
    }
  }

  lemma {:induction false} MarkedIsShown(a: string, c: string, s: string, i: nat)
    requires OccursAt(a + MARK + c, s, i) && TokenFree(a) && TokenFree(c) && Unblank(a + MARK + c)
    ensures "" !in PREFIXES && RedactEach(a + MARK + c, PREFIXES) == a + MARK + c
    ensures !Free(LastChars(Line(a + MARK + c), |a + MARK + c|), s)
  {
    PrefixesAre();
    forall p | p in PREFIXES ensures Free(a + MARK + c, p) {
      MarkBetween(a, c, p);
    }
    NothingRedacted(a + MARK + c, PREFIXES);
    NoBlankLine(a + MARK + c);
  }

  const TOKEN: string := "xoxp-"

  /** What of `s` stands before the mark, and after it. */
  function Before(s: string, k: int): string
    requires -|s| < k < |MARK|
  {
    if k < 0 then s[..-k] else ""
  }

  function After(s: string, k: int): string
    requires -|s| < k < |MARK|
  {
    if k + |s| > |MARK| then s[|MARK| - k..] else ""
  }

  lemma FitsThere(s: string, k: int)
    requires -|s| < k < |MARK| && Fits(s, k)
    ensures OccursAt(Before(s, k) + MARK + After(s, k), s, if k < 0 then 0 else k)
  {
    var t, i := Before(s, k) + MARK + After(s, k), if k < 0 then 0 else k;
    forall j | 0 <= j < |s| ensures t[i + j] == s[j] {
      if 0 <= k + j < |MARK| {
        assert s[j] == MARK[k + j];
      }
    }
    assert t[i..i + |s|] == s;
  }

  lemma SideFree(s: string, k: int, p: string)
    requires -|s| < k < |MARK| && p != "" && Free(s, p)
    ensures Free(Before(s, k), p) && Free(After(s, k), p)
  {
    assert s[0..0] == "";
    FreeSlice(s, p, 0, 0);
    if k < 0 {
      FreeSlice(s, p, 0, -k);
      assert s[0..-k] == s[..-k];
    }
    if k + |s| > |MARK| {
      FreeSlice(s, p, |MARK| - k, |s|);
      assert s[|MARK| - k..|s|] == s[|MARK| - k..];
    }
  }

  lemma UnblankConcat(a: string, b: string)
    requires Unblank(a) && Unblank(b)
    ensures Unblank(a + b)
  {
  }

  lemma SidesAreParts(s: string, k: int)
    requires -|s| < k < |MARK| && TokenFree(s) && Unblank(s)
    ensures TokenFree(Before(s, k)) && TokenFree(After(s, k))
    ensures Unblank(Before(s, k) + MARK + After(s, k))
  {
    PrefixesAre();
    forall p | p in PREFIXES ensures Free(Before(s, k), p) && Free(After(s, k), p) {
      SideFree(s, k, p);
    }
    MarkUnblank();
    UnblankConcat(Before(s, k), MARK);
    UnblankConcat(Before(s, k) + MARK, After(s, k));
  }

  lemma MarkUnblank()
    ensures Unblank(MARK)
  {
  }

  /** The token stands nowhere earlier: it cannot overlap itself. */
  lemma TokenIsFirst(u: string, w: string)
    requires Free(u, TOKEN)
    ensures NoneBefore(u + (TOKEN + w), TOKEN, |u|)
  {
    var t := u + (TOKEN + w);
    forall i | 0 <= i < |u| ensures !OccursAt(t, TOKEN, i) {
      if i + |TOKEN| <= |u| {
        Front(u, TOKEN + w, TOKEN, i);
      } else {
        assert t[i..i + |TOKEN|][|u| - i] == t[|u|] == 'x';
        if |u| - i == 2 {
          assert t[i..i + |TOKEN|][3] == t[|u| + 1] == 'o';
        }
      }
    }
  }

  lemma {:induction false} TokenReplaced(u: string, w: string)
    requires NoneBefore(u + (TOKEN + w), TOKEN, |u|) && Free(w, TOKEN)
    ensures ReplaceAll(u + (TOKEN + w), TOKEN) == u + (MARK + w)
    decreases |u|
  {
    if u == "" {
      TokenFirst(w);
    } else {
      var rest := u[1..] + (TOKEN + w);
      assert u + (TOKEN + w) == [u[0]] + rest;
      assert !OccursAt([u[0]] + rest, TOKEN, 0);
      NoneInRest(u[0], rest, |u| - 1);
      TokenReplaced(u[1..], w);
      assert ReplaceAll([u[0]] + rest, TOKEN) == [u[0]] + ReplaceAll(rest, TOKEN);
      assert [u[0]] + (u[1..] + (MARK + w)) == u + (MARK + w);
    }
  }

  lemma {:induction false} TokenFirst(w: string)
    requires Free(w, TOKEN)
    ensures ReplaceAll("" + (TOKEN + w), TOKEN) == "" + (MARK + w)
  {
    Unfronted(TOKEN + w);
    assert (TOKEN + w)[|TOKEN|..] == w;
    NothingReplaced(w, TOKEN);
    Unfronted(MARK + w);
  }

  lemma NoneInRest(c: char, rest: string, n: nat)
    requires NoneBefore([c] + rest, TOKEN, n + 1)
    ensures NoneBefore(rest, TOKEN, n)
  {
    forall i | 0 <= i < n ensures !OccursAt(rest, TOKEN, i) {
      Shift([c], rest, TOKEN, i + 1);
    }
  }

  lemma ShorterIsFree(text: string, s: string)
    requires |text| < |s|
    ensures Free(text, s)
  {
  }

  /** `s` begins within the mark: two copies show it. */
  lemma ShownAfter(s: string, k: nat)
    requires k < |MARK| && s != "" && Fits(s, k) && TokenFree(s) && Unblank(s)
    ensures !Free(Shown(s + After(s, k), |MARK + After(s, k)|, [s]), s)
  {
    var w := After(s, k);
    OneOrdered(s);
    OneReplaced(s + w, s);
    assert (s + w)[|s|..] == w;
    ShorterIsFree(w, s);
    NothingReplaced(w, s);
    Unfronted(MARK);
    assert "" + MARK + w == MARK + w;
    FitsThere(s, k);
    SidesAreParts(s, k);
    MarkedIsShown("", w, s, k);
  }

  lemma BeforeHidesIt(s: string, k: int)
    requires -|s| < k < 0 && k + |s| <= |MARK| && Fits(s, k)
    ensures Free(Before(s, k) + (TOKEN + ""), s)
  {
    var text := Before(s, k) + (TOKEN + "");
    assert s[-k] == MARK[0];
    forall i | 0 <= i <= |text| - |s| ensures !OccursAt(text, s, i) {
      assert text[i..i + |s|][-k] == text[i - k];
      assert text[i - k] == TOKEN[i];
    }
  }

  /** `s` ends within the mark: a token shows it. */
  lemma ShownBefore(s: string, k: int)
    requires -|s| < k < 0 && k + |s| <= |MARK| && Fits(s, k) && TokenFree(s) && Unblank(s)
    ensures !Free(Shown(Before(s, k) + (TOKEN + ""), |Before(s, k) + MARK + ""|, [s]), s)
  {
    var u := Before(s, k);
    var text := u + (TOKEN + "");
    PrefixesAre();
    OneOrdered(s);
    OneReplaced(text, s);
    BeforeHidesIt(s, k);
    NothingReplaced(text, s);
    SidesAreParts(s, k);
    TokenIsFirst(u, "");
    TokenRedacted(u);
    assert u + MARK + "" == u + MARK;
    forall p | p in PREFIXES ensures Free(u + MARK, p) {
      MarkBetween(u, "", p);
    }
    FirstRedacted(text, PREFIXES, u + MARK);
    FitsThere(s, k);
    MarkedIsShown(u, "", s, 0);
  }

  lemma {:induction false} TokenRedacted(u: string)
    requires NoneBefore(u + (TOKEN + ""), TOKEN, |u|)
    ensures Redact(u + (TOKEN + ""), TOKEN) == u + MARK
  {
    var text := u + (TOKEN + "");
    assert TokenPrefix(TOKEN) by { PrefixesAre(); }
    TokenStands(u);
    FoundAt(text, TOKEN, |u|);
    TokenIsLong(text, TOKEN, |u|);
    RedactOnce(text, TOKEN, |u|);
    TokenGone(u, EndOf(text, |u|));
  }

  lemma TokenStands(u: string)
    ensures OccursAt(u + (TOKEN + ""), TOKEN, |u|)
  {
    Shift(u, TOKEN + "", TOKEN, |u|);
    assert (TOKEN + "")[0..0 + |TOKEN|] == TOKEN;
  }

  lemma TokenGone(u: string, end: nat)
    requires end == |u + (TOKEN + "")|
    ensures (u + (TOKEN + ""))[..|u|] + MARK + Redact((u + (TOKEN + ""))[end..], TOKEN) == u + MARK
  {
    assert (u + (TOKEN + ""))[..|u|] == u && (u + (TOKEN + ""))[end..] == "";
    assert Redact("", TOKEN) == "";
    assert u + MARK + "" == u + MARK;
  }

  lemma FoundAt(text: string, p: string, n: nat)
    requires NoneBefore(text, p, n) && OccursAt(text, p, n)
    ensures Find(text, p) == Some(n)
  {
  }

  lemma {:induction false} FirstRedacted(text: string, prefixes: seq<string>, marked: string)
    requires prefixes != [] && "" !in prefixes && Redact(text, prefixes[0]) == marked
    requires forall p :: p in prefixes ==> Free(marked, p)
    ensures RedactEach(text, prefixes) == marked
  {
    var n := |prefixes| - 1;
    assert prefixes[n] in prefixes;
    if n == 0 {
      assert prefixes[..0] == [];
    } else {
      FirstRedacted(text, prefixes[..n], marked);
    }
  }

  /** `s` holds a whole mark: with the token as another secret it is shown. */
  lemma ShownAround(s: string, k: int)
    requires -|s| < k < 0 && k + |s| > |MARK| && Fits(s, k) && TokenFree(s) && Unblank(s)
    ensures !Free(Shown(Before(s, k) + (TOKEN + After(s, k)), |Before(s, k) + MARK + After(s, k)|, [s, TOKEN]), s)
  {
    var u, w := Before(s, k), After(s, k);
    var text := u + (TOKEN + w);
    TwoOrdered(s, TOKEN);
    ShorterIsFree(text, s);
    NothingReplaced(text, s);
    SidesAreParts(s, k);
    TokenIsFirst(u, w);
    TokenReplaced(u, w);
    Assoc(u, MARK, w);
    assert [s, TOKEN][..1] == [s];
    OneReplaced(text, s);
    FitsThere(s, k);
    MarkedIsShown(u, w, s, 0);
  }

  lemma TwoOrdered(s: string, q: string)
    requires |s| >= |q| >= 1
    ensures Ordered([s, q]) == [s, q]
  {
    assert [s, q][..1] == [s];
    OneOrdered(s);
    assert [s] + [q] == [s, q];
  }

  /** An exposed secret is shown for some output and some list of secrets that holds it. */
  lemma ExposedIsShown(s: string) returns (text: string, limit: nat, secrets: seq<string>)
    requires s != "" && Exposed(s)
    ensures s in secrets && !Free(Shown(text, limit, secrets), s)
  {
    if ' ' in s {
      text := SpacedIsShown(s);
      limit, secrets := |s| + 2, [s];
    } else {
      var k :| -|s| < k < |MARK| && Fits(s, k);
      assert Unblank(s);
      var u, w := Before(s, k), After(s, k);
      limit := |u + MARK + w|;
      if k >= 0 {
        ShownAfter(s, k);
        text, limit, secrets := s + w, |MARK + w|, [s];
      } else if k + |s| <= |MARK| {
        ShownBefore(s, k);
        text, limit, secrets := u + (TOKEN + ""), |u + MARK + ""|, [s];
      } else {
        ShownAround(s, k);
        text, secrets := u + (TOKEN + w), [s, TOKEN];
      }
    }
  }

  /** The result never holds a configured secret, whatever the output, the limit and the other secrets, if and
      only if the secret is not exposed. */
  lemma SecretsStayOut(s: string)
    requires s != ""
    ensures (forall text, limit, secrets :: s in secrets ==> Free(Shown(text, limit, secrets), s)) <==> !Exposed(s)
  {
    if Exposed(s) {
      var text, limit, secrets := ExposedIsShown(s);
    } else {
      forall text, limit: nat, secrets | s in secrets ensures Free(Shown(text, limit, secrets), s) {
        StaysOut(text, limit, secrets, s);
      }
    }
  }
}
