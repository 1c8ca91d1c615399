/** The rule sections of a contract (src/config/contract.rs:48-118): headings found line by line, the
    bodies between them, and the contract built from them. Positions count characters. */
module ContractSections {
  import opened TextTrim
  import opened Wrappers

  const LIMIT: nat := 64 * 1024

  predicate White(c: char) {
    Blank(c, true)
  }

  datatype Heading = Heading(start: nat, end: nat, title: string)

  // ----- headings -----

  /** Just past the line that `p` is on. */
  function LineEnd(text: string, p: nat): (r: nat)
    requires p < |text|
    ensures p < r <= |text|
    decreases |text| - p
  {
    if text[p] == '\n' || p + 1 == |text| then p + 1 else LineEnd(text, p + 1)
  }

  function SkipWhite(text: string, p: nat): (r: nat)
    requires p <= |text|
    ensures p <= r <= |text|
    decreases |text| - p
  {
    if p < |text| && White(text[p]) then SkipWhite(text, p + 1) else p
  }

  function Newline(text: string, p: nat): (r: nat)
    requires p <= |text|
    ensures p <= r <= |text|
    decreases |text| - p
  {
    if p < |text| && text[p] != '\n' then Newline(text, p + 1) else p
  }

  lemma {:induction false} SkipWhiteStops(text: string, p: nat)
    requires p <= |text|
    ensures var r := SkipWhite(text, p); r < |text| ==> !White(text[r]) && text[r] != '\n'
    decreases |text| - p
  {
    if p < |text| && White(text[p]) {
      SkipWhiteStops(text, p + 1);
    }
  }

  /** `trim_start_matches('#')`. */
  function StripMarks(t: string): string {
    if t != "" && t[0] == '#' then StripMarks(t[1..]) else t
  }

  function TitleOf(line: string): string {
    Trim(StripMarks(Trim(line, true)), true)
  }

  predicate Marked(text: string, p: int) {
    0 <= p && p + 2 < |text| && text[p] == '#' && text[p + 1] == '#' && White(text[p + 2])
  }

  predicate OnlyNewlines(text: string, p: nat) {
    forall k :: p <= k < |text| ==> text[k] == '\n'
  }

  /** The heading marked at `p`, when `start` is the first character after the white space. */
  function HeadingFrom(text: string, p: nat, start: nat): (h: Option<Heading>)
    requires p + 2 < start <= |text| && (start < |text| ==> text[start] != '\n')
    ensures h.Some? ==> h.value.start == p && p + 2 < h.value.end <= |text|
  {
    if start < |text| then Some(Heading(p, Newline(text, start), TitleOf(text[start..Newline(text, start)])))
    else if !OnlyNewlines(text, p + 3) then Some(Heading(p, |text|, ""))
    else None
  }

  /** The heading that the line at `p` begins: its title may be on a later line. */
  function HeadingAt(text: string, p: nat): (h: Option<Heading>)
    requires p <= |text|
    ensures h.Some? ==> h.value.start == p && p + 2 < h.value.end <= |text| && Marked(text, p)
  {
    if !Marked(text, p) then None
    else
      SkipWhiteStops(text, p + 2);
      HeadingFrom(text, p, SkipWhite(text, p + 2))
  }

  datatype Line = Line(start: nat, heading: Option<Heading>)

  /** The lines from `offset` on, each with the heading it would begin. */
  function Lines(text: string, offset: nat): seq<Line>
    requires offset <= |text|
    decreases |text| - offset
  {
    if offset == |text| then []
    else [Line(offset, HeadingAt(text, offset))] + Lines(text, LineEnd(text, offset))
  }

  /** The headings taken from lines: none begins before what the last one consumed. */
  function Pick(lines: seq<Line>, consumed: nat): seq<Heading> {
    if lines == [] then []
    else if lines[0].start >= consumed && lines[0].heading.Some? then
      [lines[0].heading.value] + Pick(lines[1..], lines[0].heading.value.end)
    else Pick(lines[1..], consumed)
  }

  function Headings(text: string): seq<Heading> {
    Pick(Lines(text, 0), 0)
  }

  predicate LinesOk(lines: seq<Line>, from: nat, length: nat) {
    lines != [] ==>
      && from <= lines[0].start
      && (lines[0].heading.Some? ==>
            lines[0].heading.value.start == lines[0].start && lines[0].start + 2 < lines[0].heading.value.end <= length)
      && LinesOk(lines[1..], lines[0].start + 1, length)
  }

  lemma {:induction false} LinesOkFrom(lines: seq<Line>, from: nat, less: nat, length: nat)
    requires LinesOk(lines, from, length) && less <= from
    ensures LinesOk(lines, less, length)
  {
  }

  lemma {:induction false} LinesAreOk(text: string, offset: nat)
    requires offset <= |text|
    ensures LinesOk(Lines(text, offset), offset, |text|)
    decreases |text| - offset
  {
    if offset < |text| {
      var next := LineEnd(text, offset);
      LinesAreOk(text, next);
      LinesOkFrom(Lines(text, next), next, offset + 1, |text|);
      assert Lines(text, offset)[1..] == Lines(text, next);
    }
  }

  // ----- headings and bodies partition the text -----

  predicate Ordered(hs: seq<Heading>, from: nat, length: nat) {
    && (forall i :: 0 <= i < |hs| ==> from <= hs[i].start < hs[i].end <= length)
    && (forall i, j :: 0 <= i < j < |hs| ==> hs[i].end <= hs[j].start)
  }

  lemma {:induction false} PickOrdered(lines: seq<Line>, from: nat, consumed: nat, length: nat)
    requires LinesOk(lines, from, length)
    ensures Ordered(Pick(lines, consumed), if from < consumed then consumed else from, length)
  {
    if lines != [] {
      var h := lines[0].heading;
      PickOrdered(lines[1..], lines[0].start + 1,
                  if lines[0].start >= consumed && h.Some? then h.value.end else consumed, length);
    }
  }

  lemma HeadingsAreOrdered(text: string)
    ensures Ordered(Headings(text), 0, |text|)
  {
    LinesAreOk(text, 0);
    PickOrdered(Lines(text, 0), 0, 0, |text|);
  }

  /** Where the body of heading `i` stops. */
  function Stop(hs: seq<Heading>, i: nat, length: nat): nat
    requires i < |hs|
  {
    if i + 1 < |hs| then hs[i + 1].start else length
  }

  predicate InHeading(hs: seq<Heading>, i: int, p: nat) {
    0 <= i < |hs| && hs[i].start <= p < hs[i].end
  }

  predicate InBody(hs: seq<Heading>, i: int, p: nat, length: nat) {
    0 <= i < |hs| && hs[i].end <= p < Stop(hs, i, length)
  }

  predicate InSpan(hs: seq<Heading>, i: int, p: nat, length: nat) {
    InHeading(hs, i, p) || InBody(hs, i, p, length)
  }

  lemma {:induction false} FindSpan(hs: seq<Heading>, n: nat, p: nat, length: nat) returns (i: nat)
    requires Ordered(hs, 0, length) && n < |hs| && hs[n].start <= p < length
    ensures InSpan(hs, i, p, length)
    decreases |hs| - n
  {
    if n + 1 < |hs| && hs[n + 1].start <= p {
      i := FindSpan(hs, n + 1, p, length);
    } else {
      i := n;
    }
  }

  lemma SpanBefore(hs: seq<Heading>, i: int, j: int, p: nat, length: nat)
    requires Ordered(hs, 0, length) && 0 <= i < j < |hs| && InSpan(hs, i, p, length)
    ensures p < hs[j].start
  {
    assert hs[i].end <= hs[i + 1].start <= hs[j].start;
  }

  lemma OneSpan(hs: seq<Heading>, i: int, j: int, p: nat, length: nat)
    requires Ordered(hs, 0, length) && InSpan(hs, i, p, length) && InSpan(hs, j, p, length)
    ensures i == j && !(InHeading(hs, i, p) && InBody(hs, i, p, length))
  {
    if i < j {
      SpanBefore(hs, i, j, p, length);
    } else if j < i {
      SpanBefore(hs, j, i, p, length);
    }
  }

  /** Every character from the first heading on lies in exactly one heading or body. */
  lemma SpansPartition(text: string, p: nat)
    requires Headings(text) != [] && Headings(text)[0].start <= p < |text|
    ensures exists i :: InSpan(Headings(text), i, p, |text|)
    ensures forall i, j :: InSpan(Headings(text), i, p, |text|) && InSpan(Headings(text), j, p, |text|) ==> i == j
    ensures forall i :: InSpan(Headings(text), i, p, |text|) ==>
                        !(InHeading(Headings(text), i, p) && InBody(Headings(text), i, p, |text|))
  {
    var hs := Headings(text);
    HeadingsAreOrdered(text);
    var found := FindSpan(hs, 0, p, |text|);
    forall i, j | InSpan(hs, i, p, |text|) && InSpan(hs, j, p, |text|)
      ensures i == j && !(InHeading(hs, i, p) && InBody(hs, i, p, |text|))
    {
      OneSpan(hs, i, j, p, |text|);
    }
  }

  predicate LineStart(text: string, p: int) {
    p == 0 || (0 < p <= |text| && text[p - 1] == '\n')
  }

  lemma {:induction false} LineEndsAtStart(text: string, p: nat)
    requires p < |text|
    ensures LineEnd(text, p) < |text| ==> LineStart(text, LineEnd(text, p))
    decreases |text| - p
  {
    if text[p] != '\n' && p + 1 < |text| {
      LineEndsAtStart(text, p + 1);
    }
  }

  lemma {:induction false} NoStartInside(text: string, p: nat, q: int)
    requires p < |text| && p < q < LineEnd(text, p)
    ensures !LineStart(text, q)
    decreases |text| - p
  {
    if p + 1 < q {
      NoStartInside(text, p + 1, q);
    }
  }

  lemma {:induction false} LineIsListed(text: string, offset: nat, p: nat) returns (k: nat)
    requires offset <= p < |text| && LineStart(text, p) && LineStart(text, offset)
    ensures k < |Lines(text, offset)| && Lines(text, offset)[k] == Line(p, HeadingAt(text, p))
    decreases |text| - offset
  {
    if p == offset {
      k := 0;
    } else {
      var next := LineEnd(text, offset);
      if p < next {
        NoStartInside(text, offset, p);
      }
      LineEndsAtStart(text, offset);
      k := LineIsListed(text, next, p);
      k := k + 1;
    }
  }

  predicate Taken(hs: seq<Heading>, i: int, h: Heading) {
    0 <= i < |hs| && (hs[i] == h || hs[i].start < h.start < hs[i].end)
  }

  lemma {:induction false} PickTakes(lines: seq<Line>, from: nat, consumed: nat, length: nat, k: nat) returns (i: nat)
    requires LinesOk(lines, from, length) && k < |lines| && lines[k].heading.Some?
    requires lines[k].start >= consumed && lines[k].heading.value.start == lines[k].start
    ensures Taken(Pick(lines, consumed), i, lines[k].heading.value)
  {
    var h := lines[0].heading;
    if lines[0].start >= consumed && h.Some? {
      if k == 0 {
        i := 0;
      } else if lines[k].start < h.value.end {
        StartsAscend(lines, from, length, k);
        i := 0;
      } else {
        i := PickTakes(lines[1..], lines[0].start + 1, h.value.end, length, k - 1);
        i := i + 1;
      }
    } else {
      i := PickTakes(lines[1..], lines[0].start + 1, consumed, length, k - 1);
    }
  }

  lemma {:induction false} StartsAscend(lines: seq<Line>, from: nat, length: nat, k: nat)
    requires LinesOk(lines, from, length) && k < |lines|
    ensures from <= lines[k].start && (0 < k ==> lines[0].start < lines[k].start)
  {
    if 0 < k {
      StartsAscend(lines[1..], lines[0].start + 1, length, k - 1);
    }
  }

  /** A line that begins a heading is a heading found, or lies inside one whose title came later. */
  lemma HeadingsAreFound(text: string, p: nat, h: Heading)
    requires p < |text| && LineStart(text, p) && HeadingAt(text, p) == Some(h)
    ensures exists i :: Taken(Headings(text), i, h)
  {
    LinesAreOk(text, 0);
    var k := LineIsListed(text, 0, p);
    var i := PickTakes(Lines(text, 0), 0, 0, |text|, k);
    assert Taken(Headings(text), i, h);
  }

  // ----- sections and the contract -----

  datatype Section = Section(title: string, body: string)

  function SectionAt(text: string, hs: seq<Heading>, i: nat): Section
    requires i < |hs| && Ordered(hs, 0, |text|)
  {
    Section(hs[i].title, Trim(text[hs[i].end..Stop(hs, i, |text|)], true))
  }

  function SectionsOf(text: string): seq<Section> {
    var hs := Headings(text);
    HeadingsAreOrdered(text);
    seq(|hs|, i requires 0 <= i < |hs| => SectionAt(text, hs, i))
  }

  datatype Key = Participation | Replies | Delegation | Workers | Debriefs | Other

  /** The names and aliases of the sections, in lower case. */
  function KeyOf(name: string): Key {
    if name == "participation" || name == "triage" then Participation
    else if name == "replies" || name == "reply" then Replies
    else if name == "delegation" then Delegation
    else if name == "worker reports" || name == "workers" || name == "worker" then Workers
    else if name == "debriefs" || name == "debrief" then Debriefs
    else Other
  }

  /** `to_lowercase`, as a function value. */
  type Lower = string -> string

  /** The body of the first section with a key. */
  function FirstOf(sections: seq<Section>, key: Key, lower: Lower): Option<string> {
    if sections == [] then None
    else
      var last := |sections| - 1;
      var earlier := FirstOf(sections[..last], key, lower);
      if earlier.Some? then earlier
      else if KeyOf(lower(sections[last].title)) == key then Some(sections[last].body)
      else None
  }

  function RenderSection(s: Section): string {
    "## " + s.title + "\n\n" + s.body
  }

  predicate IsExtra(s: Section, lower: Lower) {
    KeyOf(lower(s.title)) == Other && s.body != ""
  }

  function Extras(sections: seq<Section>, lower: Lower): seq<Section> {
    if sections == [] then []
    else
      var last := |sections| - 1;
      Extras(sections[..last], lower) + (if IsExtra(sections[last], lower) then [sections[last]] else [])
  }

  /** Sections with a blank line between. */
  function Render(sections: seq<Section>): string {
    if sections == [] then ""
    else if |sections| == 1 then RenderSection(sections[0])
    else RenderSection(sections[0]) + "\n\n" + Render(sections[1..])
  }

  datatype Contract = Contract(participation: string, replies: string, delegation: string, workers: string,
                               debriefs: string, extra: string)

  function OrEmpty(o: Option<string>): string {
    if o.Some? then o.value else ""
  }

  function Built(sections: seq<Section>, lower: Lower): Result<Contract> {
    var participation := OrEmpty(FirstOf(sections, Participation, lower));
    var replies := OrEmpty(FirstOf(sections, Replies, lower));
    if participation == "" || replies == "" then Err
    else Ok(Contract(participation, replies, OrEmpty(FirstOf(sections, Delegation, lower)),
                     OrEmpty(FirstOf(sections, Workers, lower)), OrEmpty(FirstOf(sections, Debriefs, lower)),
                     Render(Extras(sections, lower))))
  }

  function Parsed(text: string, lower: Lower): Result<Contract> {
    if Size(text) > LIMIT then Err else Built(SectionsOf(text), lower)
  }

  // ----- what a parsed contract holds -----

  /** `body` is that of the first section titled with one of the names, in lower case; empty if there is none. */
  ghost predicate FirstTitled(sections: seq<Section>, names: seq<string>, body: string, lower: Lower) {
    || (exists i :: TitledFirst(sections, names, i, lower) && sections[i].body == body)
    || (body == "" && forall i :: 0 <= i < |sections| ==> lower(sections[i].title) !in names)
  }

  ghost predicate TitledFirst(sections: seq<Section>, names: seq<string>, i: int, lower: Lower) {
    && 0 <= i < |sections| && lower(sections[i].title) in names
    && forall j :: 0 <= j < i ==> lower(sections[j].title) !in names
  }

  lemma {:induction false} FirstOfAt(sections: seq<Section>, key: Key, lower: Lower) returns (i: nat)
    requires FirstOf(sections, key, lower).Some?
    ensures i < |sections| && KeyOf(lower(sections[i].title)) == key
    ensures forall j :: 0 <= j < i ==> KeyOf(lower(sections[j].title)) != key
    ensures sections[i].body == FirstOf(sections, key, lower).value
  {
    i := |sections| - 1;
    var init := sections[..i];
    if FirstOf(init, key, lower).Some? {
      i := FirstOfAt(init, key, lower);
    } else {
      NoneOf(init, key, lower);
      assert forall j :: 0 <= j < i ==> sections[j] == init[j];
    }
  }

  lemma {:induction false} NoneOf(sections: seq<Section>, key: Key, lower: Lower)
    requires FirstOf(sections, key, lower) == None
    ensures forall j :: 0 <= j < |sections| ==> KeyOf(lower(sections[j].title)) != key
  {
    if sections != [] {
      var init := sections[..|sections| - 1];
      NoneOf(init, key, lower);
      assert forall j :: 0 <= j < |init| ==> sections[j] == init[j];
    }
  }

  lemma {:induction false} FirstIsTitled(sections: seq<Section>, names: seq<string>, key: Key, lower: Lower)
    requires forall name :: name in names <==> KeyOf(name) == key
    ensures FirstTitled(sections, names, OrEmpty(FirstOf(sections, key, lower)), lower)
  {
    if FirstOf(sections, key, lower).Some? {
      var i := FirstOfAt(sections, key, lower);
      assert TitledFirst(sections, names, i, lower);
    } else {
      NoneOf(sections, key, lower);
    }
  }

  /** The first section with one of the names says something. */
  ghost predicate Says(sections: seq<Section>, names: seq<string>, lower: Lower) {
    exists body :: body != "" && FirstTitled(sections, names, body, lower)
  }

  lemma {:induction false} SaysIs(sections: seq<Section>, names: seq<string>, key: Key, lower: Lower)
    requires forall name :: name in names <==> KeyOf(name) == key
    ensures Says(sections, names, lower) <==> OrEmpty(FirstOf(sections, key, lower)) != ""
  {
    FirstIsTitled(sections, names, key, lower);
    if Says(sections, names, lower) {
      var body :| body != "" && FirstTitled(sections, names, body, lower);
      assert body == OrEmpty(FirstOf(sections, key, lower));
    }
  }

  const PARTICIPATION: seq<string> := ["participation", "triage"]
  const REPLIES: seq<string> := ["replies", "reply"]
  const DELEGATION: seq<string> := ["delegation"]
  const WORKERS: seq<string> := ["worker reports", "workers", "worker"]
  const DEBRIEFS: seq<string> := ["debriefs", "debrief"]

  lemma KeysAre(name: string)
    ensures name in PARTICIPATION <==> KeyOf(name) == Participation
    ensures name in REPLIES <==> KeyOf(name) == Replies
    ensures name in DELEGATION <==> KeyOf(name) == Delegation
  {
  }

  lemma OtherKeysAre(name: string)
    ensures name in WORKERS <==> KeyOf(name) == Workers
    ensures name in DEBRIEFS <==> KeyOf(name) == Debriefs
  {
  }

  lemma NamesAre()
    ensures forall name :: name in PARTICIPATION <==> KeyOf(name) == Participation
    ensures forall name :: name in REPLIES <==> KeyOf(name) == Replies
    ensures forall name :: name in DELEGATION <==> KeyOf(name) == Delegation
    ensures forall name :: name in WORKERS <==> KeyOf(name) == Workers
    ensures forall name :: name in DEBRIEFS <==> KeyOf(name) == Debriefs
  {
    forall name: string
      ensures (name in PARTICIPATION <==> KeyOf(name) == Participation) && (name in REPLIES <==> KeyOf(name) == Replies)
      ensures name in DELEGATION <==> KeyOf(name) == Delegation
      ensures (name in WORKERS <==> KeyOf(name) == Workers) && (name in DEBRIEFS <==> KeyOf(name) == Debriefs)
    {
      KeysAre(name);
      OtherKeysAre(name);
    }
  }

  /** What a contract built from sections holds. */
  ghost predicate Holds(c: Contract, sections: seq<Section>, lower: Lower) {
    && FirstTitled(sections, PARTICIPATION, c.participation, lower)
    && FirstTitled(sections, REPLIES, c.replies, lower)
    && FirstTitled(sections, DELEGATION, c.delegation, lower)
    && FirstTitled(sections, WORKERS, c.workers, lower)
    && FirstTitled(sections, DEBRIEFS, c.debriefs, lower)
    && c.extra == Render(Extras(sections, lower))
  }

  /** A text is a contract exactly when it has at most 64 KiB and its first participation section and its first
      replies section each say something; and then it holds the first section of each name or alias, an empty
      one where there is none, and all that have another name and say something, in order. */
  lemma {:induction false} ParsedExactly(text: string, lower: Lower)
    ensures Parsed(text, lower).Ok? <==>
              && Size(text) <= 65536
              && Says(SectionsOf(text), PARTICIPATION, lower) && Says(SectionsOf(text), REPLIES, lower)
    ensures Parsed(text, lower).Ok? ==> Holds(Parsed(text, lower).value, SectionsOf(text), lower)
  {
    var sections := SectionsOf(text);
    NamesAre();
    SaysIs(sections, PARTICIPATION, Participation, lower);
    SaysIs(sections, REPLIES, Replies, lower);
    if Parsed(text, lower).Ok? {
      FirstIsTitled(sections, PARTICIPATION, Participation, lower);
      FirstIsTitled(sections, REPLIES, Replies, lower);
      FirstIsTitled(sections, DELEGATION, Delegation, lower);
      FirstIsTitled(sections, WORKERS, Workers, lower);
      FirstIsTitled(sections, DEBRIEFS, Debriefs, lower);
    }
  }

  /** The extras are the sections with none of those names that say something, in order. */
  lemma {:induction false} ExtrasAre(sections: seq<Section>, lower: Lower, s: Section)
    ensures s in Extras(sections, lower) <==>
              && s in sections && s.body != ""
              && lower(s.title) !in ["participation", "triage", "replies", "reply", "delegation", "worker reports",
                                     "workers", "worker", "debriefs", "debrief"]
  {
    if sections != [] {
      var last := |sections| - 1;
      ExtrasAre(sections[..last], lower, s);
      assert sections == sections[..last] + [sections[last]];
    }
  }

  // ----- scanning forgets what came before -----

  function Shifted(hs: seq<Heading>, n: nat): seq<Heading> {
    seq(|hs|, i requires 0 <= i < |hs| => Heading(hs[i].start + n, hs[i].end + n, hs[i].title))
  }

  lemma {:induction false} LineEndShifts(pre: string, s: string, p: nat)
    requires p < |s|
    ensures LineEnd(pre + s, |pre| + p) == |pre| + LineEnd(s, p)
    decreases |s| - p
  {
    if s[p] != '\n' && p + 1 < |s| {
      LineEndShifts(pre, s, p + 1);
    }
  }

  lemma {:induction false} SkipWhiteShifts(pre: string, s: string, p: nat)
    requires p <= |s|
    ensures SkipWhite(pre + s, |pre| + p) == |pre| + SkipWhite(s, p)
    decreases |s| - p
  {
    if p < |s| && White(s[p]) {
      SkipWhiteShifts(pre, s, p + 1);
    }
  }

  lemma {:induction false} NewlineShifts(pre: string, s: string, p: nat)
    requires p <= |s|
    ensures Newline(pre + s, |pre| + p) == |pre| + Newline(s, p)
    decreases |s| - p
  {
    if p < |s| && s[p] != '\n' {
      NewlineShifts(pre, s, p + 1);
    }
  }

  lemma OnlyNewlinesShifts(pre: string, s: string, p: nat)
    ensures OnlyNewlines(pre + s, |pre| + p) <==> OnlyNewlines(s, p)
  {
    if OnlyNewlines(pre + s, |pre| + p) {
      forall k | p <= k < |s| ensures s[k] == '\n' {
        assert (pre + s)[|pre| + k] == s[k];
      }
    }
  }

  function ShiftedOne(h: Option<Heading>, n: nat): Option<Heading> {
    if h.Some? then Some(Heading(h.value.start + n, h.value.end + n, h.value.title)) else None
  }

  lemma SliceShifts(pre: string, s: string, a: nat, b: nat)
    requires a <= b <= |s|
    ensures (pre + s)[|pre| + a..|pre| + b] == s[a..b]
  {
  }

  lemma HeadingFromShifts(pre: string, s: string, p: nat, start: nat)
    requires p + 2 < start <= |s| && (start < |s| ==> s[start] != '\n')
    ensures HeadingFrom(pre + s, |pre| + p, |pre| + start) == ShiftedOne(HeadingFrom(s, p, start), |pre|)
  {
    if start < |s| {
      NewlineShifts(pre, s, start);
      SliceShifts(pre, s, start, Newline(s, start));
    } else {
      OnlyNewlinesShifts(pre, s, p + 3);
    }
  }

  lemma HeadingShifts(pre: string, s: string, p: nat)
    requires p <= |s|
    ensures HeadingAt(pre + s, |pre| + p) == ShiftedOne(HeadingAt(s, p), |pre|)
  {
    if Marked(s, p) {
      SkipWhiteShifts(pre, s, p + 2);
      SkipWhiteStops(s, p + 2);
      HeadingFromShifts(pre, s, p, SkipWhite(s, p + 2));
    }
  }

  function ShiftedLines(lines: seq<Line>, n: nat): seq<Line> {
    seq(|lines|, i requires 0 <= i < |lines| => Line(lines[i].start + n, ShiftedOne(lines[i].heading, n)))
  }

  lemma {:induction false} LinesShift(pre: string, s: string, offset: nat)
    requires offset <= |s|
    ensures Lines(pre + s, |pre| + offset) == ShiftedLines(Lines(s, offset), |pre|)
    decreases |s| - offset
  {
    if offset < |s| {
      LineEndShifts(pre, s, offset);
      HeadingShifts(pre, s, offset);
      LinesShift(pre, s, LineEnd(s, offset));
    }
  }

  lemma {:induction false} PickShifts(lines: seq<Line>, consumed: nat, n: nat)
    ensures Pick(ShiftedLines(lines, n), consumed + n) == Shifted(Pick(lines, consumed), n)
  {
    if lines != [] {
      assert ShiftedLines(lines, n)[1..] == ShiftedLines(lines[1..], n);
      var h := lines[0].heading;
      PickShifts(lines[1..], if lines[0].start >= consumed && h.Some? then h.value.end else consumed, n);
    }
  }

  lemma {:induction false} ConsumedPast(lines: seq<Line>, from: nat, consumed: nat, length: nat)
    requires LinesOk(lines, from, length) && consumed <= from
    ensures Pick(lines, consumed) == Pick(lines, 0)
  {
    if lines != [] && lines[0].heading == None {
      ConsumedPast(lines[1..], lines[0].start + 1, consumed, length);
    }
  }

  lemma {:induction false} FreeLine(text: string, p: nat, consumed: nat)
    requires p < |text| && !Marked(text, p)
    ensures Pick(Lines(text, p), consumed) == Pick(Lines(text, LineEnd(text, p)), consumed)
  {
    assert HeadingAt(text, p) == None;
    assert Lines(text, p)[1..] == Lines(text, LineEnd(text, p));
  }

  /** Lines that begin no heading are passed over. */
  lemma {:induction false} WalkFree(text: string, p: nat, to: nat, consumed: nat)
    requires p <= to <= |text| && (to == |text| || LineStart(text, to))
    requires forall q :: p <= q < to && LineStart(text, q) ==> !Marked(text, q)
    requires LineStart(text, p)
    ensures Pick(Lines(text, p), consumed) == Pick(Lines(text, to), consumed)
    decreases |text| - p
  {
    if p < to {
      var next := LineEnd(text, p);
      LineEndsAtStart(text, p);
      if next > to {
        NoStartInside(text, p, to);
      }
      FreeLine(text, p, consumed);
      if next < |text| {
        WalkFree(text, next, to, consumed);
      }
    }
  }

  // ----- parsing a rendered contract -----

  /** A title that a heading line gives back: trimmed, on one line and not starting with a mark. */
  predicate GoodTitle(t: string) {
    && t != "" && Trimmed(t, true) && t[0] != '#'
    && forall i :: 0 <= i < |t| ==> t[i] != '\n'
  }

  /** Some line of the body begins with `##` and white space. */
  predicate HasMarkedLine(b: string) {
    exists p :: 0 <= p < |b| && LineStart(b, p) && Marked(b, p)
  }

  /** The last line of the body is a bare `##`. */
  predicate EndsBare(b: string) {
    |b| >= 2 && LineStart(b, |b| - 2) && b[|b| - 2] == '#' && b[|b| - 1] == '#'
  }

  predicate Sound(s: Section) {
    GoodTitle(s.title) && Trimmed(s.body, true)
  }

  /** A section whose body begins no heading; what follows it makes a heading of a bare last line. */
  predicate Passable(s: Section, last: bool) {
    Sound(s) && !HasMarkedLine(s.body) && (last || !EndsBare(s.body))
  }

  lemma TrimOfTrimmed(t: string)
    requires Trimmed(t, true)
    ensures Trim(t, true) == t
  {
    assert "" + t + "" == t;
    TrimOfPadded("", t, "", true);
  }

  lemma TitleIsKept(t: string)
    requires GoodTitle(t)
    ensures TitleOf(t) == t
  {
    TrimOfTrimmed(t);
  }

  lemma {:induction false} LineEndIs(text: string, p: nat, end: nat)
    requires p <= end < |text| && text[end] == '\n' && forall k :: p <= k < end ==> text[k] != '\n'
    ensures LineEnd(text, p) == end + 1 && Newline(text, p) == end
    decreases end - p
  {
    if p < end {
      LineEndIs(text, p + 1, end);
    }
  }

  /** A rendered heading is found as it is. */
  lemma FirstHeading(t: string, more: string)
    requires GoodTitle(t)
    ensures var text := "## " + t + "\n" + more;
            HeadingAt(text, 0) == Some(Heading(0, 3 + |t|, t)) && LineEnd(text, 0) == 4 + |t|
  {
    var text := "## " + t + "\n" + more;
    assert text[0] == '#' && text[1] == '#' && text[2] == ' ' && text[3 + |t|] == '\n';
    assert forall k :: 0 <= k < |t| ==> text[3 + k] == t[k];
    assert text[3] == t[0];
    assert SkipWhite(text, 2) == 3;
    forall k | 3 <= k < 3 + |t| ensures text[k] != '\n' {
      assert text[k] == t[k - 3];
    }
    LineEndIs(text, 3, 3 + |t|);
    LineEndIs(text, 0, 3 + |t|);
    assert text[3..3 + |t|] == t;
    TitleIsKept(t);
  }

  /** What follows a section: nothing, or a blank line and the next one. */
  predicate Follows(tail: string) {
    tail == "" || (2 <= |tail| && tail[0] == '\n' && tail[1] == '\n')
  }

  /** The lines of such a body, and the blank lines around it, begin no heading. */
  lemma BodyIsFree(head: string, b: string, tail: string, q: int)
    requires head != "" && head[|head| - 1] == '\n' && Follows(tail)
    requires !HasMarkedLine(b) && (tail == "" || !EndsBare(b))
    requires |head| - 1 <= q < |head| + |b| + (if tail == "" then 0 else 2)
    requires LineStart(head + b + tail, q)
    ensures !Marked(head + b + tail, q)
  {
    var text := head + b + tail;
    var p := q - |head|;
    if 0 <= p < |b| {
      assert text[q] == b[p];
      assert LineStart(b, p) by {
        if 0 < p {
          assert text[q - 1] == b[p - 1];
        }
      }
      assert !Marked(b, p);
      if p + 1 < |b| {
        assert text[q + 1] == b[p + 1];
        if p + 2 < |b| {
          assert text[q + 2] == b[p + 2];
        }
      } else if tail != "" {
        assert text[q + 1] == tail[0];
      }
    } else if p < 0 {
      assert text[q] == '\n';
    } else {
      assert text[q] == tail[p - |b|];
    }
  }

  function Start(s: Section): nat {
    |RenderSection(s)| + 2
  }

  lemma RenderedParts(s: Section, tail: string)
    ensures RenderSection(s) + tail == "## " + s.title + "\n" + ("\n" + s.body + tail)
    ensures RenderSection(s) + tail == ("## " + s.title + "\n\n") + s.body + tail
  {
  }

  /** The lines after a section's heading, up to the next section, are passed over. */
  lemma BodyIsPassed(s: Section, tail: string)
    requires Passable(s, tail == "") && Follows(tail)
    ensures var text := RenderSection(s) + tail;
            var to := if tail == "" then |text| else Start(s);
            4 + |s.title| <= to <= |text|
                && Pick(Lines(text, 4 + |s.title|), 3 + |s.title|) == Pick(Lines(text, to), 3 + |s.title|)
  {
    var text := RenderSection(s) + tail;
    var head := "## " + s.title + "\n\n";
    var to := if tail == "" then |text| else Start(s);
    RenderedParts(s, tail);
    assert text == head + s.body + tail;
    assert text[3 + |s.title|] == '\n';
    forall q | 4 + |s.title| <= q < to && LineStart(text, q) ensures !Marked(text, q) {
      BodyIsFree(head, s.body, tail, q);
    }
    if tail != "" {
      assert text[to - 1] == tail[1];
    }
    WalkFree(text, 4 + |s.title|, to, 3 + |s.title|);
  }

  /** The lines of the next section are those of its own text, moved. */
  lemma {:induction false} NextIsMoved(pre: string, rest: string, consumed: nat)
    requires consumed <= |pre|
    ensures Pick(Lines(pre + rest, |pre|), consumed) == Shifted(Headings(rest), |pre|)
  {
    LinesShift(pre, rest, 0);
    PickShifts(Lines(rest, 0), 0, |pre|);
    LinesAreOk(pre + rest, |pre|);
    ConsumedPast(Lines(pre + rest, |pre|), |pre|, consumed, |pre + rest|);
    ConsumedPast(Lines(pre + rest, |pre|), |pre|, |pre|, |pre + rest|);
  }

  function FirstOne(s: Section): Heading {
    Heading(0, 3 + |s.title|, s.title)
  }

  lemma FirstIsPicked(s: Section, tail: string)
    requires GoodTitle(s.title)
    ensures var text := RenderSection(s) + tail;
            4 + |s.title| <= |text| && Headings(text) == [FirstOne(s)] + Pick(Lines(text, 4 + |s.title|), 3 + |s.title|)
  {
    var text := RenderSection(s) + tail;
    RenderedParts(s, tail);
    FirstHeading(s.title, "\n" + s.body + tail);
    assert Lines(text, 0)[1..] == Lines(text, 4 + |s.title|);
  }

  lemma LastHeadings(s: Section)
    requires Passable(s, true)
    ensures Headings(RenderSection(s)) == [FirstOne(s)]
  {
    assert RenderSection(s) + "" == RenderSection(s);
    FirstIsPicked(s, "");
    BodyIsPassed(s, "");
  }

  lemma MoreHeadings(s: Section, rest: string)
    requires Passable(s, false)
    ensures Headings(RenderSection(s) + "\n\n" + rest) == [FirstOne(s)] + Shifted(Headings(rest), Start(s))
  {
    var pre := RenderSection(s) + "\n\n";
    assert RenderSection(s) + ("\n\n" + rest) == pre + rest;
    FirstIsPicked(s, "\n\n" + rest);
    BodyIsPassed(s, "\n\n" + rest);
    NextIsMoved(pre, rest, 3 + |s.title|);
  }

  lemma LastBody(s: Section)
    requires Passable(s, true)
    ensures SectionsOf(RenderSection(s)) == [s]
  {
    var text := RenderSection(s);
    LastHeadings(s);
    HeadingsAreOrdered(text);
    assert text[3 + |s.title|..|text|] == "\n\n" + s.body + "";
    TrimOfPadded("\n\n", s.body, "", true);
    assert SectionsOf(text)[0] == s;
  }

  predicate Opens(text: string) {
    Headings(text) != [] && Headings(text)[0].start == 0
  }

  lemma FirstBody(s: Section, rest: string)
    requires Passable(s, false) && Opens(rest)
    ensures var text := RenderSection(s) + "\n\n" + rest;
            SectionsOf(text) != [] && SectionsOf(text)[0] == s
  {
    var text := RenderSection(s) + "\n\n" + rest;
    MoreHeadings(s, rest);
    HeadingsAreOrdered(text);
    assert Headings(text)[1].start == Start(s);
    assert text[3 + |s.title|..Start(s)] == "\n\n" + s.body + "\n\n";
    TrimOfPadded("\n\n", s.body, "\n\n", true);
  }

  lemma LaterBodies(s: Section, rest: string, i: nat)
    requires Passable(s, false) && i < |SectionsOf(rest)|
    ensures var text := RenderSection(s) + "\n\n" + rest;
            |SectionsOf(text)| == |SectionsOf(rest)| + 1 && SectionsOf(text)[i + 1] == SectionsOf(rest)[i]
  {
    var pre := RenderSection(s) + "\n\n";
    var text := pre + rest;
    MoreHeadings(s, rest);
    HeadingsAreOrdered(text);
    HeadingsAreOrdered(rest);
    var hs, rs := Headings(text), Headings(rest);
    assert hs[i + 1] == Heading(rs[i].start + |pre|, rs[i].end + |pre|, rs[i].title);
    assert Stop(hs, i + 1, |text|) == |pre| + Stop(rs, i, |rest|);
    SliceShifts(pre, rest, rs[i].end, Stop(rs, i, |rest|));
  }

  ghost predicate AllSound(sections: seq<Section>) {
    forall i :: 0 <= i < |sections| ==> Sound(sections[i])
  }

  /** No body has a marked line, and none before the last ends in a bare mark. */
  ghost predicate AllPass(sections: seq<Section>) {
    forall i :: 0 <= i < |sections| ==> Passable(sections[i], i == |sections| - 1)
  }

  lemma {:induction false} RenderOpens(sections: seq<Section>)
    requires sections != [] && Sound(sections[0])
    ensures Opens(Render(sections))
  {
    var tail := if |sections| == 1 then "" else "\n\n" + Render(sections[1..]);
    assert Render(sections) == RenderSection(sections[0]) + tail;
    FirstIsPicked(sections[0], tail);
  }

  /** Sections with such titles and bodies come back as they were. */
  lemma {:induction false} RenderedSectionsParse(sections: seq<Section>)
    requires AllPass(sections)
    ensures SectionsOf(Render(sections)) == sections
  {
    if |sections| == 0 {
      assert Lines("", 0) == [];
    } else if |sections| == 1 {
      LastBody(sections[0]);
    } else {
      var rest := Render(sections[1..]);
      PassRest(sections);
      RenderedSectionsParse(sections[1..]);
      RenderOpens(sections[1..]);
      FirstBody(sections[0], rest);
      var text := Render(sections);
      assert |SectionsOf(text)| == |sections| by { LaterBodies(sections[0], rest, 0); }
      forall i | 0 <= i < |sections| ensures SectionsOf(text)[i] == sections[i] {
        if 0 < i {
          LaterBodies(sections[0], rest, i - 1);
        }
      }
    }
  }

  lemma PassRest(sections: seq<Section>)
    requires |sections| > 1
    ensures AllPass(sections) <==> Passable(sections[0], false) && AllPass(sections[1..])
  {
    if Passable(sections[0], false) && AllPass(sections[1..]) {
      forall i | 0 <= i < |sections| ensures Passable(sections[i], i == |sections| - 1) {
        if 0 < i {
          assert Passable(sections[1..][i - 1], i - 1 == |sections[1..]| - 1);
        }
      }
    }
    if AllPass(sections) {
      forall i | 0 <= i < |sections[1..]| ensures Passable(sections[1..][i], i == |sections[1..]| - 1) {
        assert Passable(sections[i + 1], i + 1 == |sections| - 1);
      }
    }
  }

  // ----- ... and no others do -----

  lemma {:induction false} TrimStartIsShorter(s: string)
    ensures |TrimStart(s, true)| <= |s|
  {
    if s != "" && White(s[0]) {
      TrimStartIsShorter(s[1..]);
    }
  }

  lemma {:induction false} TrimEndIsShorter(s: string)
    ensures |TrimEnd(s, true)| <= |s|
  {
    if s != "" && White(s[|s| - 1]) {
      TrimEndIsShorter(s[..|s| - 1]);
    }
  }

  /** After two line ends, only what follows them is left by trimming. */
  lemma TrimAfterLineEnds(x: string, b: string)
    requires |x| <= 2 + |b| && x == ("\n\n" + b)[..|x|]
    ensures |Trim(x, true)| <= if |x| < 2 then 0 else |x| - 2
  {
    var pad := if |x| < 2 then x else "\n\n";
    assert x == pad + x[|pad|..];
    StartOfPadded(pad, x[|pad|..], true);
    TrimStartIsShorter(x[|pad|..]);
    TrimEndIsShorter(TrimStart(x, true));
  }

  lemma {:induction false} SkipsToInk(text: string, p: nat, ink: nat)
    requires p <= ink < |text| && !White(text[ink])
    ensures SkipWhite(text, p) <= ink
    decreases ink - p
  {
    if p < ink && White(text[p]) {
      SkipsToInk(text, p + 1, ink);
    }
  }

  /** The mark that makes a body come back short: a marked line, or a bare last line that something follows. */
  predicate MarkAt(b: string, tail: string, p: int) {
    && 0 <= p && p + 1 < |b| && LineStart(b, p) && b[p] == '#' && b[p + 1] == '#'
    && (if p + 2 < |b| then White(b[p + 2]) else tail != "")
  }

  lemma MarkIsHeading(head: string, b: string, tail: string, p: nat)
    requires head != "" && head[|head| - 1] == '\n' && Trimmed(b, true) && Follows(tail) && MarkAt(b, tail, p)
    requires tail == "" || (3 <= |tail| && !White(tail[2]))
    ensures var text := head + b + tail;
            LineStart(text, |head| + p) && HeadingAt(text, |head| + p).Some?
  {
    var text := head + b + tail;
    var q := |head| + p;
    assert text[q] == '#' && text[q + 1] == '#';
    assert LineStart(text, q) by {
      if 0 < p {
        assert text[q - 1] == b[p - 1];
      }
    }
    var ink := if p + 2 < |b| then |head| + |b| - 1 else |head| + |b| + 2;
    if p + 2 < |b| {
      assert text[q + 2] == b[p + 2] && text[ink] == b[|b| - 1];
    } else {
      assert text[q + 2] == tail[0] && text[ink] == tail[2];
    }
    SkipsToInk(text, q + 2, ink);
  }

  /** A heading found after the first one ends the first body. */
  lemma FirstStops(s: Section, tail: string, q: nat)
    requires GoodTitle(s.title) && 3 + |s.title| < q < |RenderSection(s) + tail|
    requires LineStart(RenderSection(s) + tail, q) && HeadingAt(RenderSection(s) + tail, q).Some?
    ensures var hs := Headings(RenderSection(s) + tail);
            hs != [] && hs[0] == FirstOne(s) && 3 + |s.title| <= Stop(hs, 0, |RenderSection(s) + tail|) <= q
  {
    var text := RenderSection(s) + tail;
    var h := HeadingAt(text, q).value;
    FirstIsPicked(s, tail);
    HeadingsAreOrdered(text);
    HeadingsAreFound(text, q, h);
    SecondComesBy(Headings(text), FirstOne(s), h, |text|);
  }

  lemma MarkStops(s: Section, tail: string, p: nat)
    requires Sound(s) && Follows(tail) && MarkAt(s.body, tail, p)
    requires tail == "" || (3 <= |tail| && !White(tail[2]))
    ensures var hs := Headings(RenderSection(s) + tail);
            hs != [] && hs[0] == FirstOne(s)
                && 3 + |s.title| <= Stop(hs, 0, |RenderSection(s) + tail|) <= 5 + |s.title| + p
  {
    var head := "## " + s.title + "\n\n";
    RenderedParts(s, tail);
    MarkIsHeading(head, s.body, tail, p);
    FirstStops(s, tail, |head| + p);
  }

  /** Such a body comes back shorter, whatever stands after it. */
  lemma MarkedBodyIsLost(s: Section, tail: string, p: nat)
    requires Sound(s) && Follows(tail) && MarkAt(s.body, tail, p)
    requires tail == "" || (3 <= |tail| && !White(tail[2]))
    ensures var text := RenderSection(s) + tail;
            SectionsOf(text) != [] && SectionsOf(text)[0].title == s.title && |SectionsOf(text)[0].body| <= p
  {
    var text := RenderSection(s) + tail;
    MarkStops(s, tail, p);
    HeadingsAreOrdered(text);
    var stop := Stop(Headings(text), 0, |text|);
    BodySlice(s, tail, stop);
    TrimAfterLineEnds(text[3 + |s.title|..stop], s.body);
  }

  lemma SecondComesBy(hs: seq<Heading>, first: Heading, h: Heading, length: nat)
    requires Ordered(hs, 0, length) && hs != [] && hs[0] == first && first.end < h.start
    requires exists i :: Taken(hs, i, h)
    ensures first.end <= Stop(hs, 0, length) <= h.start
  {
    var i :| Taken(hs, i, h);
    assert 0 < i;
    assert 1 < i ==> hs[1].end <= hs[i].start;
  }

  lemma BodySlice(s: Section, tail: string, stop: nat)
    requires 3 + |s.title| <= stop <= |RenderSection(s)|
    ensures (RenderSection(s) + tail)[3 + |s.title|..stop] == ("\n\n" + s.body)[..stop - 3 - |s.title|]
  {
  }

  lemma NotPassable(s: Section, tail: string) returns (p: nat)
    requires Sound(s) && !Passable(s, tail == "")
    ensures MarkAt(s.body, tail, p)
  {
    if HasMarkedLine(s.body) {
      var q :| 0 <= q < |s.body| && LineStart(s.body, q) && Marked(s.body, q);
      p := q;
    } else {
      p := |s.body| - 2;
    }
  }

  /** Round trip, exactly: sections with good titles and trimmed bodies come back as they were if and only if
      no body has a marked line and none before the last ends in a bare `##`. */
  lemma {:induction false} RoundTripExactly(sections: seq<Section>)
    requires AllSound(sections)
    ensures SectionsOf(Render(sections)) == sections <==> AllPass(sections)
  {
    if AllPass(sections) {
      RenderedSectionsParse(sections);
    } else {
      var s := sections[0];
      var tail := if |sections| == 1 then "" else "\n\n" + Render(sections[1..]);
      var text := RenderSection(s) + tail;
      assert Render(sections) == text;
      if Passable(s, tail == "") {
        var rest := Render(sections[1..]);
        assert RenderSection(s) + "\n\n" + rest == text;
        PassRest(sections);
        RoundTripExactly(sections[1..]);
        RestDiffers(s, rest, sections);
      } else {
        var p := NotPassable(s, tail);
        if |sections| > 1 {
          TailStarts(sections);
        }
        MarkedBodyIsLost(s, tail, p);
      }
    }
  }

  lemma TailStarts(sections: seq<Section>)
    requires |sections| > 1
    ensures |Render(sections[1..])| >= 1 && Render(sections[1..])[0] == '#'
  {
  }

  lemma RestDiffers(s: Section, rest: string, sections: seq<Section>)
    requires Passable(s, false) && |sections| > 1 && SectionsOf(rest) != sections[1..]
    ensures SectionsOf(RenderSection(s) + "\n\n" + rest) != sections
  {
    var text := RenderSection(s) + "\n\n" + rest;
    MoreHeadings(s, rest);
    HeadingsAreOrdered(text);
    assert |SectionsOf(text)| == |SectionsOf(rest)| + 1;
    if SectionsOf(text) == sections {
      forall i | 0 <= i < |SectionsOf(rest)| ensures SectionsOf(rest)[i] == sections[1..][i] {
        LaterBodies(s, rest, i);
      }
      assert false;
    }
  }

  /** A body that ends in a bare `##` does not come back when any section follows. */
  lemma {:induction false} BareMarkIsLost(sections: seq<Section>, i: nat)
    requires AllSound(sections) && i < |sections| - 1 && EndsBare(sections[i].body)
    ensures SectionsOf(Render(sections)) != sections
  {
    assert !Passable(sections[i], i == |sections| - 1);
    RoundTripExactly(sections);
  }

  /** The named sections of a contract, in their usual order. */
  function Named(c: Contract): seq<Section> {
    [Section("Participation", c.participation), Section("Replies", c.replies), Section("Delegation", c.delegation),
     Section("Workers", c.workers), Section("Debriefs", c.debriefs)]
  }

  ghost predicate LowersNames(lower: Lower) {
    && lower("Participation") == "participation" && lower("Replies") == "replies"
    && lower("Delegation") == "delegation" && lower("Workers") == "workers" && lower("Debriefs") == "debriefs"
  }

  ghost predicate GoodContract(c: Contract, extras: seq<Section>, lower: Lower) {
    && c.participation != "" && c.replies != ""
    && (forall i :: 0 <= i < |extras| ==> IsExtra(extras[i], lower))
    && c.extra == Render(extras)
  }

  lemma {:induction false} FirstOfMore(a: seq<Section>, b: seq<Section>, key: Key, lower: Lower)
    ensures FirstOf(a + b, key, lower) ==
              if FirstOf(a, key, lower).Some? then FirstOf(a, key, lower) else FirstOf(b, key, lower)
    decreases |b|
  {
    if b == [] {
      assert a + b == a;
    } else {
      assert (a + b)[..|a + b| - 1] == a + b[..|b| - 1];
      FirstOfMore(a, b[..|b| - 1], key, lower);
    }
  }

  lemma {:induction false} ExtrasMore(a: seq<Section>, b: seq<Section>, lower: Lower)
    ensures Extras(a + b, lower) == Extras(a, lower) + Extras(b, lower)
    decreases |b|
  {
    if b == [] {
      assert a + b == a;
    } else {
      assert (a + b)[..|a + b| - 1] == a + b[..|b| - 1];
      ExtrasMore(a, b[..|b| - 1], lower);
    }
  }

  lemma {:induction false} OnlyExtras(extras: seq<Section>, key: Key, lower: Lower)
    requires key != Other && forall i :: 0 <= i < |extras| ==> IsExtra(extras[i], lower)
    ensures FirstOf(extras, key, lower) == None && Extras(extras, lower) == extras
    decreases |extras|
  {
    if extras != [] {
      OnlyExtras(extras[..|extras| - 1], key, lower);
    }
  }

  lemma {:induction false} OneNamed(s: Section, key: Key, lower: Lower)
    ensures FirstOf([s], key, lower) == (if KeyOf(lower(s.title)) == key then Some(s.body) else None)
    ensures Extras([s], lower) == if IsExtra(s, lower) then [s] else []
  {
    assert [s][..0] == [];
  }

  lemma NamedKeys(c: Contract, lower: Lower)
    requires LowersNames(lower)
    ensures KeyOf(lower(Named(c)[0].title)) == Participation && KeyOf(lower(Named(c)[1].title)) == Replies
    ensures KeyOf(lower(Named(c)[2].title)) == Delegation && KeyOf(lower(Named(c)[3].title)) == Workers
    ensures KeyOf(lower(Named(c)[4].title)) == Debriefs
  {
  }

  function BodyOf(c: Contract, key: Key): string {
    match key
    case Participation => c.participation
    case Replies => c.replies
    case Delegation => c.delegation
    case Workers => c.workers
    case Debriefs => c.debriefs
    case Other => ""
  }

  lemma {:induction false} NamedIs(c: Contract, key: Key, lower: Lower)
    requires LowersNames(lower) && key != Other
    ensures FirstOf(Named(c), key, lower) == Some(BodyOf(c, key))
  {
    var n := Named(c);
    NamedKeys(c, lower);
    assert n == [n[0]] + ([n[1]] + ([n[2]] + ([n[3]] + [n[4]])));
    OneNamed(n[0], key, lower);
    OneNamed(n[1], key, lower);
    OneNamed(n[2], key, lower);
    OneNamed(n[3], key, lower);
    OneNamed(n[4], key, lower);
    FirstOfMore([n[3]], [n[4]], key, lower);
    FirstOfMore([n[2]], [n[3]] + [n[4]], key, lower);
    FirstOfMore([n[1]], [n[2]] + ([n[3]] + [n[4]]), key, lower);
    FirstOfMore([n[0]], [n[1]] + ([n[2]] + ([n[3]] + [n[4]])), key, lower);
  }

  lemma NamedAreNoExtras(c: Contract, lower: Lower)
    requires LowersNames(lower)
    ensures Extras(Named(c), lower) == []
  {
    var n := Named(c);
    NamedKeys(c, lower);
    assert n[..4] == [n[0], n[1], n[2], n[3]];
    assert n[..4][..3] == [n[0], n[1], n[2]];
    assert n[..4][..3][..2] == [n[0], n[1]];
    assert n[..4][..3][..2][..1] == [n[0]];
    OneNamed(n[0], Other, lower);
    assert Extras([n[0]], lower) == [];
    assert Extras([n[0], n[1]], lower) == [];
    assert Extras([n[0], n[1], n[2]], lower) == [];
    assert Extras([n[0], n[1], n[2], n[3]], lower) == [];
  }

  lemma {:induction false} FirstOfWhole(c: Contract, extras: seq<Section>, key: Key, lower: Lower)
    requires GoodContract(c, extras, lower) && LowersNames(lower) && key != Other
    ensures FirstOf(Named(c) + extras, key, lower) == FirstOf(Named(c), key, lower)
  {
    NamedIs(c, key, lower);
    FirstOfMore(Named(c), extras, key, lower);
  }

  /** Parsing a rendered contract gives the contract back. The five names are good titles; a bare `##` may
      end the last body. */
  lemma {:induction false} ContractRoundTrip(c: Contract, extras: seq<Section>, lower: Lower)
    requires GoodContract(c, extras, lower) && LowersNames(lower)
    requires AllPass(Named(c) + extras) && Size(Render(Named(c) + extras)) <= LIMIT
    ensures Parsed(Render(Named(c) + extras), lower) == Ok(c)
  {
    RenderedSectionsParse(Named(c) + extras);
    WholeIsBuilt(c, extras, lower);
  }

  lemma WholeIsBuilt(c: Contract, extras: seq<Section>, lower: Lower)
    requires GoodContract(c, extras, lower) && LowersNames(lower)
    ensures Built(Named(c) + extras, lower) == Ok(c)
  {
    var all := Named(c) + extras;
    NamedIs(c, Participation, lower);
    FirstOfWhole(c, extras, Participation, lower);
    NamedIs(c, Replies, lower);
    FirstOfWhole(c, extras, Replies, lower);
    NamedIs(c, Delegation, lower);
    FirstOfWhole(c, extras, Delegation, lower);
    NamedIs(c, Workers, lower);
    FirstOfWhole(c, extras, Workers, lower);
    NamedIs(c, Debriefs, lower);
    FirstOfWhole(c, extras, Debriefs, lower);
    OnlyExtras(extras, Participation, lower);
    NamedAreNoExtras(c, lower);
    ExtrasMore(Named(c), extras, lower);
    assert Extras(all, lower) == extras;
  }

  // ----- the parser's own loops -----

  lemma {:induction false} LineStep(text: string, offset: nat, consumed: nat)
    requires offset < |text|
    ensures Pick(Lines(text, offset), consumed) ==
              var rest := Lines(text, LineEnd(text, offset));
              var h := HeadingAt(text, offset);
              if offset >= consumed && h.Some? then [h.value] + Pick(rest, h.value.end) else Pick(rest, consumed)
  {
    assert Lines(text, offset)[1..] == Lines(text, LineEnd(text, offset));
  }

  /** src/config/contract.rs:58-75, for one line. */
  method FindOne(text: string, offset: nat) returns (h: Option<Heading>)
    requires offset <= |text|
    ensures h == HeadingAt(text, offset)
  {
    h := None;
    if Marked(text, offset) {
      SkipWhiteStops(text, offset + 2);
      var start := SkipWhite(text, offset + 2);
      if start < |text| {
        var end := Newline(text, start);
        h := Some(Heading(offset, end, TitleOf(text[start..end])));
      } else if !OnlyNewlines(text, offset + 3) {
        h := Some(Heading(offset, |text|, ""));
      }
    }
  }

  /** src/config/contract.rs:54-77. */
  method FindHeadings(text: string) returns (headings: seq<Heading>)
    ensures headings == Headings(text)
  {
    headings := [];
    var offset: nat, consumed: nat := 0, 0;
    while offset < |text|
      invariant 0 <= offset <= |text|
      invariant headings + Pick(Lines(text, offset), consumed) == Headings(text)
    {
      LineStep(text, offset, consumed);
      if offset >= consumed {
        var h := FindOne(text, offset);
        if h.Some? {
          consumed := h.value.end;
          headings := headings + [h.value];
        }
      }
      offset := LineEnd(text, offset);
    }
  }

  lemma {:induction false} FirstOfNext(sections: seq<Section>, i: nat, key: Key, lower: Lower)
    requires i < |sections|
    ensures FirstOf(sections[..i + 1], key, lower) ==
              if FirstOf(sections[..i], key, lower).Some? then FirstOf(sections[..i], key, lower)
              else if KeyOf(lower(sections[i].title)) == key then Some(sections[i].body) else None
    ensures Extras(sections[..i + 1], lower) ==
              Extras(sections[..i], lower) + (if IsExtra(sections[i], lower) then [sections[i]] else [])
  {
    assert sections[..i + 1][..i] == sections[..i];
  }

  predicate FoundFor(found: map<Key, string>, sections: seq<Section>, key: Key, lower: Lower) {
    FirstOf(sections, key, lower) == if key in found then Some(found[key]) else None
  }

  ghost predicate FoundAll(found: map<Key, string>, sections: seq<Section>, lower: Lower) {
    forall key :: key != Other ==> FoundFor(found, sections, key, lower)
  }

  lemma FoundNext(found: map<Key, string>, sections: seq<Section>, i: nat, lower: Lower)
    requires i < |sections| && FoundAll(found, sections[..i], lower)
    ensures var key := KeyOf(lower(sections[i].title));
            FoundAll(if key == Other || key in found then found else found[key := sections[i].body], sections[..i + 1],
                     lower)
  {
    var key := KeyOf(lower(sections[i].title));
    var found' := if key == Other || key in found then found else found[key := sections[i].body];
    var upto := sections[..i + 1];
    forall k | k != Other ensures FoundFor(found', upto, k, lower) {
      assert FoundFor(found, sections[..i], k, lower);
      FirstOfNext(sections, i, k, lower);
    }
  }

  /** src/config/contract.rs:78-98: the first section of each name, and the others that say something. */
  method Collect(text: string, headings: seq<Heading>, lower: Lower)
    returns (found: map<Key, string>, extra: seq<Section>)
    requires headings == Headings(text)
    ensures FoundAll(found, SectionsOf(text), lower) && extra == Extras(SectionsOf(text), lower)
  {
    HeadingsAreOrdered(text);
    ghost var sections := SectionsOf(text);
    found, extra := map[], [];
    var i := 0;
    while i < |headings|
      invariant 0 <= i <= |headings| == |sections|
      invariant FoundAll(found, sections[..i], lower)
      invariant extra == Extras(sections[..i], lower)
    {
      var stop := if i + 1 < |headings| then headings[i + 1].start else |text|;
      var body := Trim(text[headings[i].end..stop], true);
      var key := KeyOf(lower(headings[i].title));
      assert sections[i] == Section(headings[i].title, body);
      FoundNext(found, sections, i, lower);
      FirstOfNext(sections, i, key, lower);
      if key == Other {
        if body != "" {
          extra := extra + [Section(headings[i].title, body)];
        }
      } else if key !in found {
        found := found[key := body];
      }
      i := i + 1;
    }
    assert sections[..i] == sections;
  }

  /** `parse` (src/config/contract.rs:48-118). */
  method Parse(text: string, lower: Lower) returns (r: Result<Contract>)
    ensures r == Parsed(text, lower)
  {
    if Size(text) > LIMIT {
      return Err;
    }
    var headings := FindHeadings(text);
    var found, extra := Collect(text, headings, lower);
    ghost var sections := SectionsOf(text);
    assert FoundFor(found, sections, Participation, lower) && FoundFor(found, sections, Replies, lower);
    assert FoundFor(found, sections, Delegation, lower) && FoundFor(found, sections, Workers, lower);
    assert FoundFor(found, sections, Debriefs, lower);
    var participation := if Participation in found then found[Participation] else "";
    var replies := if Replies in found then found[Replies] else "";
    if participation == "" || replies == "" {
      return Err;
    }
    r := Ok(Contract(participation, replies, if Delegation in found then found[Delegation] else "",
                     if Workers in found then found[Workers] else "", if Debriefs in found then found[Debriefs] else "",
                     Render(extra)));
  }
}
