/** Attached text files: the UTF-8 cut of a download and the per-reply selection and budget
    (src/slack/files.rs). */
module SlackFiles {
  import opened Wrappers

  type Byte = b: int | 0 <= b < 256

  const MAX_FILES: nat := 3
  const FILE_LIMIT: nat := 64 * 1024
  const TOTAL_LIMIT: nat := FILE_LIMIT

  // ----- well-formed UTF-8: section 4 of RFC 3629 -----

  predicate Tail(b: Byte) {
    0x80 <= b <= 0xBF
  }

  /** The length of the well-formed character `s` starts with, or 0 if it starts with none. */
  function CharLength(s: seq<Byte>): (n: nat)
    ensures n <= |s| && n <= 4
  {
    if s == [] then 0
    else if s[0] <= 0x7F then 1
    else if 0xC2 <= s[0] <= 0xDF then
      if |s| >= 2 && Tail(s[1]) then 2 else 0
    else if 0xE0 <= s[0] <= 0xEF then
      if |s| >= 3 && ThirdRange(s[0], s[1]) && Tail(s[2]) then 3 else 0
    else if 0xF0 <= s[0] <= 0xF4 then
      if |s| >= 4 && FourthRange(s[0], s[1]) && Tail(s[2]) && Tail(s[3]) then 4 else 0
    else 0
  }

  predicate ThirdRange(lead: Byte, b: Byte) {
    if lead == 0xE0 then 0xA0 <= b <= 0xBF else if lead == 0xED then 0x80 <= b <= 0x9F else Tail(b)
  }

  predicate FourthRange(lead: Byte, b: Byte) {
    if lead == 0xF0 then 0x90 <= b <= 0xBF else if lead == 0xF4 then 0x80 <= b <= 0x8F else Tail(b)
  }

  predicate WellFormed(s: seq<Byte>) {
    s == [] || (CharLength(s) > 0 && WellFormed(s[CharLength(s)..]))
  }

  lemma CharLengthPrefix(s: seq<Byte>, n: nat)
    requires n <= |s| && CharLength(s) > 0
    ensures n >= CharLength(s) ==> CharLength(s[..n]) == CharLength(s)
    ensures n < CharLength(s) ==> CharLength(s[..n]) == 0
  {
  }

  /** Some prefix at most three bytes short of `n` is well-formed, and shorter ones are no
      longer than it. */
  lemma {:induction false} CutExists(file: seq<Byte>, n: nat) returns (drop: nat)
    requires WellFormed(file) && n <= |file|
    ensures drop <= 3 && drop <= n && WellFormed(file[..n - drop])
    ensures forall m :: n - drop < m <= n ==> !WellFormed(file[..m])
    decreases |file|
  {
    if n == 0 {
      drop := 0;
    } else {
      var c := CharLength(file);
      if n < c {
        drop := n;
        forall m | 0 < m <= n ensures !WellFormed(file[..m]) {
          CharLengthPrefix(file, m);
        }
      } else {
        var rest := file[c..];
        drop := CutExists(rest, n - c);
        forall m | c <= m <= n ensures WellFormed(file[..m]) <==> WellFormed(rest[..m - c]) {
          CharLengthPrefix(file, m);
          assert file[..m][c..] == rest[..m - c];
        }
      }
    }
  }

  // ----- what well-formed text is -----

  /** A Unicode scalar value: a code point that is no surrogate. */
  type Scalar = c: int | 0 <= c <= 0xD7FF || 0xE000 <= c <= 0x10FFFF

  /** Reference definition: the encoding of section 3 of RFC 3629. */
  function Encode(c: Scalar): seq<Byte> {
    if c < 0x80 then [c]
    else if c < 0x800 then [0xC0 + c / 64, 0x80 + c % 64]
    else if c < 0x1_0000 then [0xE0 + c / 4096, 0x80 + c / 64 % 64, 0x80 + c % 64]
    else [0xF0 + c / 262144, 0x80 + c / 4096 % 64, 0x80 + c / 64 % 64, 0x80 + c % 64]
  }

  function EncodeAll(cs: seq<Scalar>): seq<Byte> {
    if cs == [] then [] else Encode(cs[0]) + EncodeAll(cs[1..])
  }

  lemma EncodedStarts(c: Scalar, rest: seq<Byte>)
    ensures CharLength(Encode(c) + rest) == |Encode(c)| > 0
  {
  }

  lemma StartIsEncoded(s: seq<Byte>) returns (c: Scalar)
    requires CharLength(s) > 0
    ensures s[..CharLength(s)] == Encode(c)
  {
    var n := CharLength(s);
    var a: int := s[0];
    if n == 1 {
      c := a;
    } else if n == 2 {
      var b: int := s[1];
      c := (a - 0xC0) * 64 + b - 0x80;
    } else if n == 3 {
      var b: int, d: int := s[1], s[2];
      c := (a - 0xE0) * 4096 + (b - 0x80) * 64 + d - 0x80;
      assert c / 64 == (a - 0xE0) * 64 + b - 0x80;
    } else {
      var b: int, d: int, e: int := s[1], s[2], s[3];
      c := (a - 0xF0) * 262144 + (b - 0x80) * 4096 + (d - 0x80) * 64 + e - 0x80;
      assert c / 64 == (a - 0xF0) * 4096 + (b - 0x80) * 64 + d - 0x80;
      assert c / 4096 == (a - 0xF0) * 64 + b - 0x80;
    }
  }

  lemma {:induction false} EncodedIsWellFormed(cs: seq<Scalar>)
    ensures WellFormed(EncodeAll(cs))
  {
    if cs != [] {
      EncodedStarts(cs[0], EncodeAll(cs[1..]));
      EncodedIsWellFormed(cs[1..]);
      assert EncodeAll(cs)[|Encode(cs[0])|..] == EncodeAll(cs[1..]);
    }
  }

  lemma {:induction false} WellFormedDecodes(s: seq<Byte>) returns (cs: seq<Scalar>)
    requires WellFormed(s)
    ensures s == EncodeAll(cs)
  {
    if s == [] {
      cs := [];
    } else {
      var n := CharLength(s);
      var c := StartIsEncoded(s);
      var rest := WellFormedDecodes(s[n..]);
      cs := [c] + rest;
      assert s == s[..n] + s[n..];
    }
  }

  /** Bytes are well-formed exactly when they are the encoding of some scalar values. */
  lemma {:induction false} WellFormedIsEncoded(s: seq<Byte>)
    ensures WellFormed(s) <==> exists cs :: s == EncodeAll(cs)
  {
    if WellFormed(s) {
      var cs := WellFormedDecodes(s);
    } else if cs :| s == EncodeAll(cs) {
      EncodedIsWellFormed(cs);
    }
  }

  // ----- one download -----

  datatype Attachment = Attachment(id: string, isText: bool, size: nat)
  datatype Download = Download(data: seq<Byte>, size: nat)
  datatype Content = Failed | NotUtf8 | Binary | Text(body: seq<Byte>, truncated: bool, size: nat)

  function SizeOf(a: Attachment, d: Download): nat {
    if d.size != 0 then d.size else if |d.data| > FILE_LIMIT && a.size != 0 then a.size else |d.data|
  }

  predicate IsCut(a: Attachment, d: Download) {
    |d.data| > FILE_LIMIT || SizeOf(a, d) > FILE_LIMIT
  }

  function Kept(d: Download): seq<Byte> {
    if |d.data| > FILE_LIMIT then d.data[..FILE_LIMIT] else d.data
  }

  /** `data[..m]` is the longest well-formed prefix of `data`. */
  ghost predicate Longest(data: seq<Byte>, m: int) {
    && 0 <= m <= |data| && WellFormed(data[..m])
    && forall k :: m < k <= |data| ==> !WellFormed(data[..k])
  }

  function Built(body: seq<Byte>, cut: bool, size: nat): Content {
    if 0 in body then Binary else Text(body, cut, size)
  }

  /** How many bytes may be left off: three when the download is cut, none otherwise. */
  function Slack(cut: bool): nat {
    if cut then 3 else 0
  }

  /** What `text` makes of a download: the longest well-formed prefix, when it is near enough. */
  ghost predicate TextSpec(a: Attachment, d: Download, r: Content) {
    if |d.data| > FILE_LIMIT + 1 then r == Failed else
      var data, cut := Kept(d), IsCut(a, d);
      || (r == NotUtf8 && forall m :: 0 <= m <= |data| && |data| - m <= Slack(cut) ==> !WellFormed(data[..m]))
      || exists m :: Longest(data, m) && |data| - m <= Slack(cut) && r == Built(data[..m], cut, SizeOf(a, d))
  }

  /** The loop of `text`: how much of the data to keep, or None when no try is well-formed. */
  method KeepLength(data: seq<Byte>, slack: nat) returns (m: Option<nat>)
    ensures m.Some? ==> Longest(data, m.value) && |data| - m.value <= slack
    ensures m == None ==> forall k :: 0 <= k <= |data| && |data| - k <= slack ==> !WellFormed(data[..k])
  {
    for drop := 0 to slack + 1
      invariant forall k :: 0 <= k <= |data| && |data| - k < drop ==> !WellFormed(data[..k])
    {
      if drop <= |data| && WellFormed(data[..|data| - drop]) {
        return Some(|data| - drop);
      }
    }
    m := None;
  }

  /** `text` (src/slack/files.rs:69-102), without its header line and truncation notice. */
  method ReadText(a: Attachment, d: Download) returns (r: Content)
    ensures TextSpec(a, d, r)
  {
    if |d.data| > FILE_LIMIT + 1 {
      return Failed;
    }
    var size := d.size;
    if size == 0 {
      size := if |d.data| > FILE_LIMIT && a.size != 0 then a.size else |d.data|;
    }
    var cut := |d.data| > FILE_LIMIT || size > FILE_LIMIT;
    var data := Kept(d);
    var m := KeepLength(data, if cut then 3 else 0);
    if m == None {
      return NotUtf8;
    }
    r := if 0 in data[..m.value] then Binary else Text(data[..m.value], cut, size);
  }

  /** The download is the start of the file: all of it, or its first FILE_LIMIT or FILE_LIMIT + 1 bytes. */
  predicate StartOf(d: Download, file: seq<Byte>) {
    d.data <= file && (d.data == file || |d.data| == FILE_LIMIT || |d.data| == FILE_LIMIT + 1)
    && |d.data| <= FILE_LIMIT + 1
  }

  lemma LongestIsOne(data: seq<Byte>, m: int, n: int)
    requires Longest(data, m) && Longest(data, n)
    ensures m == n
  {
  }

  /** In the start of a well-formed file the longest well-formed prefix leaves off at most three bytes. */
  lemma KeptNearlyAll(d: Download, file: seq<Byte>) returns (m: nat)
    requires WellFormed(file) && StartOf(d, file)
    ensures Longest(Kept(d), m) && |Kept(d)| - m <= 3
  {
    var data := Kept(d);
    var drop := CutExists(file, |data|);
    m := |data| - drop;
    assert forall k :: 0 <= k <= |data| ==> file[..k] == data[..k];
  }

  /** UTF-8 cut: for a well-formed file the text is read as such exactly when more than 64 KiB were fetched or
      reported, so that the download is recognized as cut, or its first 64 KiB happen to end at a character; and
      then the text is the longest well-formed prefix within the limit, marked as truncated just when cut. */
  lemma {:induction false} CutIsExact(a: Attachment, d: Download, file: seq<Byte>, r: Content)
    requires WellFormed(file) && StartOf(d, file) && TextSpec(a, d, r)
    ensures r != Failed
    ensures r != NotUtf8 <==> |d.data| > 65536 || d.size > 65536 || WellFormed(d.data)
    ensures r.Text? ==> r.body <= file && |Kept(d)| - |r.body| <= 3 && Longest(Kept(d), |r.body|)
    ensures r.Text? ==> (r.truncated <==> |d.data| > 65536 || d.size > 65536) && 0 !in r.body
  {
    var data := Kept(d);
    var m := KeptNearlyAll(d, file);
    assert data[..|data|] == data;
    if r != NotUtf8 {
      var n :| Longest(data, n) && |data| - n <= Slack(IsCut(a, d)) && r == Built(data[..n], IsCut(a, d), SizeOf(a, d));
      LongestIsOne(data, m, n);
    }
  }

  /** A whole file, or one extra byte, is always recognized: only exactly FILE_LIMIT bytes of a longer
      file, with no size or too small a size reported, can be refused as not UTF-8. */
  lemma {:induction false} RefusedOnlyAtTheLimit(a: Attachment, d: Download, file: seq<Byte>, r: Content)
    requires WellFormed(file) && StartOf(d, file) && TextSpec(a, d, r) && r == NotUtf8
    ensures |d.data| == FILE_LIMIT < |file| && d.size <= FILE_LIMIT
  {
    CutIsExact(a, d, file, r);
    assert d.data == file[..|d.data|];
    assert file[..|file|] == file;
  }

  /** Any bytes at all: too many fail the download; otherwise they are refused exactly when nothing well-formed
      is left by dropping up to three bytes of a cut download, or none of a whole one. The size shown is the one
      reported with the download, or with the attachment if more came than is kept, or the number of bytes. */
  lemma ReadExactly(a: Attachment, d: Download, r: Content)
    requires TextSpec(a, d, r)
    ensures r == Failed <==> |d.data| > 65537
    ensures |d.data| <= 65536 && d.size <= 65536 ==> (r == NotUtf8 <==> !WellFormed(d.data))
    ensures |d.data| <= 65537 && (|d.data| > 65536 || d.size > 65536) ==>
              var kept := if |d.data| > 65536 then d.data[..65536] else d.data;
              r == NotUtf8 <==> forall m :: 0 <= m <= |kept| && |kept| - m <= 3 ==> !WellFormed(kept[..m])
    ensures r.Text? ==>
              r.size == if d.size != 0 then d.size else if |d.data| > 65536 && a.size != 0 then a.size else |d.data|
  {
    if |d.data| <= FILE_LIMIT + 1 && r != NotUtf8 {
      var kept, m := NearlyAll(a, d, r);
    } else if |d.data| <= FILE_LIMIT {
      assert d.data[..|d.data|] == d.data;
    }
  }

  lemma NearlyAll(a: Attachment, d: Download, r: Content) returns (kept: seq<Byte>, m: nat)
    requires TextSpec(a, d, r) && |d.data| <= FILE_LIMIT + 1 && r != NotUtf8
    ensures kept == (if |d.data| > 65536 then d.data[..65536] else d.data)
    ensures m <= |kept| && |kept| - m <= (if |d.data| > 65536 || d.size > 65536 then 3 else 0) && WellFormed(kept[..m])
    ensures m == |kept| ==> kept[..m] == kept
    ensures r != Failed && (r.Text? ==> r.size == SizeOf(a, d))
  {
    kept := Kept(d);
    m :| Longest(kept, m) && |kept| - m <= Slack(IsCut(a, d)) && r == Built(kept[..m], IsCut(a, d), SizeOf(a, d));
  }

  function Same(n: nat, b: Byte): (s: seq<Byte>)
    ensures |s| == n && forall i :: 0 <= i < n ==> s[i] == b
  {
    seq(n, i => b)
  }

  lemma {:induction false} AsciiWellFormed(s: seq<Byte>, tail: seq<Byte>)
    requires forall i :: 0 <= i < |s| ==> s[i] <= 0x7F
    ensures WellFormed(s + tail) <==> WellFormed(tail)
    decreases |s|
  {
    if s == [] {
      assert s + tail == tail;
    } else {
      AsciiWellFormed(s[1..], tail);
      assert (s + tail)[1..] == s[1..] + tail;
    }
  }

  /** Such a refusal happens: a file with a two-byte character across the limit, fetched up to the
      limit by a server that reports no size. */
  lemma LimitMayRefuse(a: Attachment, r: Content) returns (d: Download, file: seq<Byte>)
    ensures WellFormed(file) && StartOf(d, file)
    ensures TextSpec(a, d, r) ==> r == NotUtf8
  {
    var front := Same(FILE_LIMIT - 1, 0x61);
    file := front + [0xC3, 0xA9];
    AsciiWellFormed(front, [0xC3, 0xA9]);
    assert [0xC3, 0xA9][2..] == [];
    d := Download(front + [0xC3], 0);
    AsciiWellFormed(front, [0xC3]);
    assert file[..FILE_LIMIT] == d.data;
    if TextSpec(a, d, r) {
      CutIsExact(a, d, file, r);
    }
  }

  // ----- selection -----

  datatype Message = Message(event: Option<string>, attachments: seq<Attachment>)
  datatype Selection = Selection(files: set<string>, chosen: seq<Attachment>)

  /** One attachment met in order: read unless it is Fridica's own, already met, not text, or one too many. */
  function Consider(s: Selection, own: set<string>, a: Attachment): Selection {
    Selection(s.files + {a.id},
              if a.id in own || a.id in s.files || !a.isText || |s.chosen| >= MAX_FILES then s.chosen
              else s.chosen + [a])
  }

  function ConsiderAll(s: Selection, own: set<string>, all: seq<Attachment>): Selection {
    if all == [] then s else Consider(ConsiderAll(s, own, all[..|all| - 1]), own, all[|all| - 1])
  }

  function EventsOf(messages: seq<Message>): seq<string> {
    if messages == [] then [] else
      var last := messages[|messages| - 1];
      EventsOf(messages[..|messages| - 1]) + (if last.event.Some? then [last.event.value] else [])
  }

  /** The attachments considered: those of each event's first message. */
  function Considered(messages: seq<Message>): seq<Attachment> {
    if messages == [] then [] else
      var init, last := messages[..|messages| - 1], messages[|messages| - 1];
      Considered(init) + (if last.event == None || last.event.value in EventsOf(init) then [] else last.attachments)
  }

  /** The selection loop of `read` (src/slack/files.rs:111-147). */
  method Select(messages: seq<Message>, own: set<string>) returns (chosen: seq<Attachment>)
    ensures Fair(chosen, own, Considered(messages))
  {
    var seen: seq<string> := [];
    var s := Selection({}, []);
    ghost var all := [];
    for i := 0 to |messages|
      invariant seen == EventsOf(messages[..i]) && all == Considered(messages[..i])
      invariant s == ConsiderAll(Selection({}, []), own, all)
    {
      var message := messages[i];
      NextMessage(messages, i);
      if message.event.Some? {
        if message.event.value !in seen {
          s := TakeFrom(s, own, all, message.attachments);
          all := all + message.attachments;
        }
        seen := seen + [message.event.value];
      }
    }
    assert messages[..|messages|] == messages;
    SelectionIsFair(own, all);
    chosen := s.chosen;
  }

  lemma NextMessage(messages: seq<Message>, i: nat)
    requires i < |messages|
    ensures EventsOf(messages[..i + 1])
            == EventsOf(messages[..i]) + (if messages[i].event.Some? then [messages[i].event.value] else [])
    ensures var first := messages[i].event.Some? && messages[i].event.value !in EventsOf(messages[..i]);
            Considered(messages[..i + 1])
            == if first then Considered(messages[..i]) + messages[i].attachments else Considered(messages[..i])
    ensures messages[i].event == None ==> EventsOf(messages[..i + 1]) == EventsOf(messages[..i])
  {
    assert messages[..i + 1][..i] == messages[..i];
  }

  /** The attachments of one message, in order. */
  method TakeFrom(s0: Selection, own: set<string>, ghost before: seq<Attachment>, attachments: seq<Attachment>)
    returns (s: Selection)
    requires s0 == ConsiderAll(Selection({}, []), own, before)
    ensures s == ConsiderAll(Selection({}, []), own, before + attachments)
  {
    s := s0;
    assert before + attachments[..0] == before;
    for j := 0 to |attachments|
      invariant s == ConsiderAll(Selection({}, []), own, before + attachments[..j])
    {
      var a := attachments[j];
      ghost var met := before + attachments[..j + 1];
      assert met[..|met| - 1] == before + attachments[..j];
      var files := s.files + {a.id};
      if a.id in own || a.id in s.files || !a.isText || |s.chosen| >= MAX_FILES {
        s := Selection(files, s.chosen);
      } else {
        s := Selection(files, s.chosen + [a]);
      }
    }
    assert attachments[..|attachments|] == attachments;
  }

  /** At most three files, each ID once, none of them Fridica's own, all text; and a text file that
      is not its own is passed over only when an earlier attachment had its ID or three are chosen. */
  ghost predicate Fair(chosen: seq<Attachment>, own: set<string>, all: seq<Attachment>) {
    && |chosen| <= 3
    && (forall i, j :: 0 <= i < j < |chosen| ==> chosen[i].id != chosen[j].id)
    && (forall i :: 0 <= i < |chosen| ==> chosen[i] in all && chosen[i].isText && chosen[i].id !in own)
    && forall k :: 0 <= k < |all| ==> Passed(chosen, own, all, k)
  }

  predicate Passed(chosen: seq<Attachment>, own: set<string>, all: seq<Attachment>, k: int)
    requires 0 <= k < |all|
  {
    all[k].isText && all[k].id !in own ==> all[k] in chosen || |chosen| == 3 || Earlier(all, k, all[k].id)
  }

  predicate Earlier(all: seq<Attachment>, k: int, id: string) {
    exists j :: 0 <= j < k && j < |all| && all[j].id == id
  }

  lemma EarlierMore(all: seq<Attachment>, a: Attachment, k: int, id: string)
    ensures k <= |all| ==> (Earlier(all + [a], k, id) <==> Earlier(all, k, id))
    ensures Earlier(all + [a], |all| + 1, id) <==> Earlier(all, |all|, id) || a.id == id
  {
    var more := all + [a];
    assert forall j :: 0 <= j < |all| ==> more[j] == all[j];
    assert more[|all|] == a;
  }

  /** The IDs met are those of the attachments considered. */
  lemma {:induction false} FilesAreMet(own: set<string>, all: seq<Attachment>, id: string)
    ensures id in ConsiderAll(Selection({}, []), own, all).files <==> Earlier(all, |all|, id)
  {
    if all != [] {
      var n := |all| - 1;
      FilesAreMet(own, all[..n], id);
      EarlierMore(all[..n], all[n], 0, id);
      assert all == all[..n] + [all[n]];
    }
  }

  lemma {:induction false} ChosenGrow(own: set<string>, all: seq<Attachment>, a: Attachment, k: nat)
    requires k < |all| && Passed(ConsiderAll(Selection({}, []), own, all).chosen, own, all, k)
    ensures Passed(ConsiderAll(Selection({}, []), own, all + [a]).chosen, own, all + [a], k)
  {
    assert (all + [a])[..|all|] == all && (all + [a])[k] == all[k];
    EarlierMore(all, a, k, all[k].id);
  }

  lemma {:induction false} ChosenAreFair(own: set<string>, all: seq<Attachment>)
    ensures var chosen := ConsiderAll(Selection({}, []), own, all).chosen;
            && |chosen| <= 3
            && (forall i, j :: 0 <= i < j < |chosen| ==> chosen[i].id != chosen[j].id)
            && (forall i :: 0 <= i < |chosen| ==> chosen[i] in all && chosen[i].isText && chosen[i].id !in own)
  {
    if all != [] {
      var n := |all| - 1;
      ChosenAreFair(own, all[..n]);
      var before := ConsiderAll(Selection({}, []), own, all[..n]).chosen;
      assert all == all[..n] + [all[n]];
      forall i | 0 <= i < |before| ensures before[i] in all
          && before[i].id in ConsiderAll(Selection({}, []), own, all[..n]).files {
        var j :| 0 <= j < n && all[..n][j] == before[i];
        assert all[j] == before[i];
        assert Earlier(all[..n], n, before[i].id);
        FilesAreMet(own, all[..n], before[i].id);
      }
    }
  }

  lemma {:induction false} AllArePassed(own: set<string>, all: seq<Attachment>, k: nat)
    requires k < |all|
    ensures Passed(ConsiderAll(Selection({}, []), own, all).chosen, own, all, k)
    decreases |all|
  {
    var n := |all| - 1;
    assert all == all[..n] + [all[n]];
    if k < n {
      AllArePassed(own, all[..n], k);
      ChosenGrow(own, all[..n], all[n], k);
    } else {
      ChosenAreFair(own, all[..n]);
      FilesAreMet(own, all[..n], all[n].id);
      EarlierMore(all[..n], all[n], n, all[n].id);
      var before, s := ConsiderAll(Selection({}, []), own, all[..n]), ConsiderAll(Selection({}, []), own, all);
      assert s.chosen == before.chosen || s.chosen == before.chosen + [all[n]];
      if s.chosen == before.chosen + [all[n]] {
        assert s.chosen[|before.chosen|] == all[n];
      }
    }
  }

  /** The selection of `read` over everything it considers is fair. */
  lemma {:induction false} SelectionIsFair(own: set<string>, all: seq<Attachment>)
    ensures Fair(ConsiderAll(Selection({}, []), own, all).chosen, own, all)
  {
    ChosenAreFair(own, all);
    forall k | 0 <= k < |all| ensures Passed(ConsiderAll(Selection({}, []), own, all).chosen, own, all, k) {
      AllArePassed(own, all, k);
    }
  }

  // ----- the budget -----

  function Total(sizes: seq<nat>, included: seq<bool>): nat
    requires |sizes| == |included|
  {
    if sizes == [] then 0 else
      var n := |sizes| - 1;
      Total(sizes[..n], included[..n]) + (if included[n] then sizes[n] else 0)
  }

  /** What a result counts for: its text with the truncation notice, `notice` bytes for a size, up to the file
      limit; nothing for one that was not read. */
  function CountOf(r: Option<Content>, notice: nat -> nat): nat {
    if r.Some? && r.value.Text? then
      var shown := |r.value.body| + (if r.value.truncated then notice(r.value.size) else 0);
      if shown < FILE_LIMIT then shown else FILE_LIMIT
    else 0
  }

  function Counts(results: seq<Option<Content>>, notice: nat -> nat): seq<nat> {
    seq(|results|, i requires 0 <= i < |results| => CountOf(results[i], notice))
  }

  function BodyOf(r: Option<Content>): nat {
    if r.Some? && r.value.Text? then |r.value.body| else 0
  }

  /** Bytes of file text that go to the reply. */
  function BodyBytes(results: seq<Option<Content>>, included: seq<bool>): nat
    requires |results| == |included|
  {
    if results == [] then 0 else
      var n := |results| - 1;
      BodyBytes(results[..n], included[..n]) + (if included[n] then BodyOf(results[n]) else 0)
  }

  lemma {:induction false} BodiesWithin(results: seq<Option<Content>>, included: seq<bool>, notice: nat -> nat)
    requires |results| == |included|
    requires forall i :: 0 <= i < |results| ==> BodyOf(results[i]) <= FILE_LIMIT
    ensures BodyBytes(results, included) <= Total(Counts(results, notice), included)
  {
    if results != [] {
      var n := |results| - 1;
      assert Counts(results, notice)[..n] == Counts(results[..n], notice);
      BodiesWithin(results[..n], included[..n], notice);
    }
  }

  lemma {:induction false} TotalMore(counts: seq<nat>, included: seq<bool>, i: nat, take: bool)
    requires i < |counts| && |included| == i
    ensures Total(counts[..i + 1], included + [take]) == Total(counts[..i], included) + (if take then counts[i] else 0)
  {
    assert counts[..i + 1][..i] == counts[..i] && (included + [take])[..i] == included;
  }

  /** The budget loop of `read` (src/slack/files.rs:170-189): what is left out is what would not fit, and the
      text that goes to the reply stays within the limit. */
  method Budget(results: seq<Option<Content>>, notice: nat -> nat) returns (included: seq<bool>)
    requires forall i :: 0 <= i < |results| ==> BodyOf(results[i]) <= FILE_LIMIT
    ensures |included| == |results| && Total(Counts(results, notice), included) <= 65536
    ensures BodyBytes(results, included) <= 65536
    ensures forall i :: 0 <= i < |results| ==> (!included[i] <==> Overflows(Counts(results, notice), included, i))
  {
    included := [];
    var used := 0;
    ghost var counts := Counts(results, notice);
    for i := 0 to |results|
      invariant |included| == i
      invariant used == Total(counts[..i], included) <= TOTAL_LIMIT
      invariant forall j :: 0 <= j < i ==> (!included[j] <==> Overflows(counts, included, j))
    {
      var size := CountOf(results[i], notice);
      var over := size > 0 && used + size > TOTAL_LIMIT;
      TotalMore(counts, included, i, !over);
      ghost var before := included;
      included := included + [!over];
      assert included[..i] == before;
      forall j | 0 <= j < i ensures !included[j] <==> Overflows(counts, included, j) {
        assert included[..j] == before[..j];
      }
      if !over {
        used := used + size;
      }
    }
    assert counts[..|counts|] == counts;
    BodiesWithin(results, included, notice);
  }

  /** The count at `i` does not fit beside what was included before it. */
  predicate Overflows(counts: seq<nat>, included: seq<bool>, i: int)
    requires 0 <= i < |counts| && i <= |included|
  {
    counts[i] > 0 && Total(counts[..i], included[..i]) + counts[i] > 65536
  }
}
