/** White space, trimming, and the length of text in UTF-8. */
module TextTrim {
  /** Unicode white space. */
  predicate IsSpace(c: char) {
    || '\t' <= c <= '\r' || c == ' ' || c == '\U{85}' || c == '\U{A0}' || c == '\U{1680}'
    || '\U{2000}' <= c <= '\U{200A}' || c == '\U{2028}' || c == '\U{2029}' || c == '\U{202F}'
    || c == '\U{205F}' || c == '\U{3000}'
  }

  /** The contract's white space has the four information separators besides (src/config/contract.rs:7-9). */
  predicate Blank(c: char, separators: bool) {
    IsSpace(c) || (separators && '\U{1C}' <= c <= '\U{1F}')
  }

  function TrimStart(s: string, separators: bool): string {
    if s != "" && Blank(s[0], separators) then TrimStart(s[1..], separators) else s
  }

  function TrimEnd(s: string, separators: bool): string {
    if s != "" && Blank(s[|s| - 1], separators) then TrimEnd(s[..|s| - 1], separators) else s
  }

  function Trim(s: string, separators: bool): string {
    TrimEnd(TrimStart(s, separators), separators)
  }

  predicate Trimmed(s: string, separators: bool) {
    s != "" ==> !Blank(s[0], separators) && !Blank(s[|s| - 1], separators)
  }

  predicate AllBlank(s: string, separators: bool) {
    forall i :: 0 <= i < |s| ==> Blank(s[i], separators)
  }

  lemma {:induction false} StartOfPadded(pad: string, s: string, separators: bool)
    requires AllBlank(pad, separators)
    ensures TrimStart(pad + s, separators) == TrimStart(s, separators)
  {
    if pad == "" {
      assert pad + s == s;
    } else {
      assert (pad + s)[1..] == pad[1..] + s;
      StartOfPadded(pad[1..], s, separators);
    }
  }

  lemma {:induction false} EndOfPadded(s: string, pad: string, separators: bool)
    requires AllBlank(pad, separators)
    ensures TrimEnd(s + pad, separators) == TrimEnd(s, separators)
  {
    if pad == "" {
      assert s + pad == s;
    } else {
      var last := |pad| - 1;
      assert (s + pad)[..|s + pad| - 1] == s + pad[..last];
      EndOfPadded(s, pad[..last], separators);
    }
  }

  /** Trimming takes white space off a trimmed text again, and nothing more. */
  lemma TrimOfPadded(before: string, s: string, after: string, separators: bool)
    requires AllBlank(before, separators) && AllBlank(after, separators) && Trimmed(s, separators)
    ensures Trim(before + s + after, separators) == s
  {
    assert before + s + after == before + (s + after);
    StartOfPadded(before, s + after, separators);
    if s == "" {
      assert s + after == after + "";
      StartOfPadded(after, "", separators);
    } else {
      assert TrimStart(s + after, separators) == s + after;
      EndOfPadded(s, after, separators);
    }
  }

  lemma {:induction false} StartParts(s: string, separators: bool) returns (before: string)
    ensures s == before + TrimStart(s, separators) && AllBlank(before, separators)
    ensures var t := TrimStart(s, separators); t != "" ==> !Blank(t[0], separators)
  {
    before := "";
    if s != "" && Blank(s[0], separators) {
      var rest := StartParts(s[1..], separators);
      before := [s[0]] + rest;
    }
  }

  lemma {:induction false} EndParts(s: string, separators: bool) returns (after: string)
    ensures s == TrimEnd(s, separators) + after && AllBlank(after, separators)
    ensures var t := TrimEnd(s, separators); t != "" ==> !Blank(t[|t| - 1], separators)
  {
    after := "";
    if s != "" && Blank(s[|s| - 1], separators) {
      var rest := EndParts(s[..|s| - 1], separators);
      after := rest + [s[|s| - 1]];
    }
  }

  /** Trimming cuts white space off both ends, all of it, and nothing else. */
  lemma TrimParts(s: string, separators: bool) returns (before: string, after: string)
    ensures s == before + Trim(s, separators) + after && Trimmed(Trim(s, separators), separators)
    ensures AllBlank(before, separators) && AllBlank(after, separators)
  {
    before := StartParts(s, separators);
    after := EndParts(TrimStart(s, separators), separators);
  }

  lemma TrimTwice(s: string, separators: bool)
    ensures Trim(Trim(s, separators), separators) == Trim(s, separators)
  {
    var before, after := TrimParts(s, separators);
    var t := Trim(s, separators);
    TrimOfPadded("", t, "", separators);
    assert "" + t + "" == t;
  }

  /** Length in UTF-8. */
  function Size(text: string): nat {
    if text == "" then 0 else Size(text[..|text| - 1]) + Width(text[|text| - 1])
  }

  function Width(c: char): nat {
    if c < '\U{80}' then 1 else if c < '\U{800}' then 2 else if c < '\U{10000}' then 3 else 4
  }
}
