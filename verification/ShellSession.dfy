/** Commands in turn: each is expanded only when it is run, in the environment the ones before it leave
    (sections 2.9.1 and 2.9.3 of the POSIX.1-2017 Shell Command Language). */
module ShellSession {
  import opened Wrappers
  import opened ShellText
  import opened ShellTokens

  type Env = map<string, string>

  // ----- what a command leaves in the environment -----

  /** How many characters at the front could be a name. */
  function NameEnd(t: Text): (n: nat)
    ensures n <= |t|
  {
    if t == [] || !t[0].Char? || !NameChar(t[0].c) then 0 else 1 + NameEnd(t[1..])
  }

  function StringOf(t: Text): string {
    seq(|t|, i requires 0 <= i < |t| => if t[i].Char? then t[i].c else ' ')
  }

  /** The name a word `name=...` assigns to. */
  function AssignedName(t: Text): Option<string> {
    var n := NameEnd(t);
    if 0 < n < |t| && t[n] == Char('=') && !('0' <= StringOf(t[..n])[0] <= '9') then Some(StringOf(t[..n])) else None
  }

  function Assigned(see: Sight, words: seq<Token>): Env {
    if words == [] then see.env else
      var env := Assigned(see, words[..|words| - 1]);
      var t := words[|words| - 1];
      if t.Word? && AssignedName(t.text).Some? then
        env[AssignedName(t.text).value := Value(see.(env := env), t.text[NameEnd(t.text) + 1..])]
      else env
  }

  /** The words before any operator. */
  function Leading(command: seq<Token>): seq<Token> {
    if command == [] || command[0].Op? then [] else [command[0]] + Leading(command[1..])
  }

  predicate AllAssign(words: seq<Token>) {
    forall i :: 0 <= i < |words| ==> words[i].Word? && AssignedName(words[i].text).Some?
  }

  /** The environment after one command of the list. `export` and assignments alone last, also before `||`; what
      is set behind another operator or a reserved word is not followed. */
  function After(see: Sight, command: seq<Token>): Env {
    var words := Leading(command);
    var rest := command[LeadingLength(command)..];
    if rest != [] && !(|rest| >= 2 && rest[0] == Op('|') && rest[1] == Op('|')) then see.env
    else if words != [] && words[0] == W("export") then Assigned(see, words[1..])
    else if AllAssign(words) then Assigned(see, words)
    else see.env
  }

  function LeadingLength(command: seq<Token>): (n: nat)
    ensures n == |Leading(command)| <= |command|
  {
    if command == [] || command[0].Op? then 0 else 1 + LeadingLength(command[1..])
  }

  // ----- commands in turn -----

  function SemiAt(ts: seq<Token>): (k: nat)
    ensures k <= |ts| && (forall i :: 0 <= i < k ==> ts[i] != Op(';')) && (k < |ts| ==> ts[k] == Op(';'))
  {
    if ts == [] || ts[0] == Op(';') then 0 else 1 + SemiAt(ts[1..])
  }

  /** Each command's words with their expansions made when it is run. */
  function Played(see: Sight, ts: seq<Token>): seq<Token>
    decreases |ts|
  {
    var k := SemiAt(ts);
    if k == |ts| then ResolveAll(see, ts)
    else ResolveAll(see, ts[..k]) + [Op(';')] + Played(see.(env := After(see, ts[..k])), ts[k + 1..])
  }

  /** The environment all of them leave. */
  function Left(see: Sight, ts: seq<Token>): Env
    decreases |ts|
  {
    var k := SemiAt(ts);
    if k == |ts| then After(see, ts) else Left(see.(env := After(see, ts[..k])), ts[k + 1..])
  }

  function Later(see: Sight, ts: seq<Token>): Sight {
    see.(env := Left(see, ts))
  }

  lemma {:induction false} SemiIs(a: seq<Token>, b: seq<Token>)
    requires Op(';') !in a
    ensures SemiAt(a + [Op(';')] + b) == |a| && SemiAt(a) == |a|
  {
    var ts := a + [Op(';')] + b;
    assert ts[|a|] == Op(';');
    assert forall i :: 0 <= i < |a| ==> ts[i] == a[i] && a[i] in a;
  }

  lemma {:induction false} PlayedConcat(see: Sight, a: seq<Token>, b: seq<Token>)
    ensures Played(see, a + [Op(';')] + b) == Played(see, a) + [Op(';')] + Played(Later(see, a), b)
    ensures Left(see, a + [Op(';')] + b) == Left(Later(see, a), b)
    decreases |a|
  {
    var k := SemiAt(a);
    if k == |a| {
      forall t | t in a ensures t != Op(';') {
        var i :| 0 <= i < |a| && a[i] == t;
      }
      SemiIs(a, b);
      assert (a + [Op(';')] + b)[..|a|] == a && (a + [Op(';')] + b)[|a| + 1..] == b;
    } else {
      var first, rest := a[..k], a[k + 1..];
      assert a == first + [Op(';')] + rest;
      forall t | t in first ensures t != Op(';') {
        var i :| 0 <= i < |first| && first[i] == t;
      }
      var after := rest + [Op(';')] + b;
      Shifted(first, rest, b);
      SemiIs(first, after);
      SemiIs(first, rest);
      TakeOff(first, after);
      var see' := see.(env := After(see, first));
      PlayedConcat(see', rest, b);
      Nested(ResolveAll(see, first), Played(see', rest), Played(Later(see', rest), b));
    }
  }

  lemma Shifted(first: seq<Token>, rest: seq<Token>, b: seq<Token>)
    ensures first + [Op(';')] + rest + [Op(';')] + b == first + [Op(';')] + (rest + [Op(';')] + b)
  {
  }

  lemma Nested(a: seq<Token>, b: seq<Token>, c: seq<Token>)
    ensures a + [Op(';')] + (b + [Op(';')] + c) == a + [Op(';')] + b + [Op(';')] + c
  {
  }

  lemma TakeOff(first: seq<Token>, after: seq<Token>)
    ensures (first + [Op(';')] + after)[..|first|] == first && (first + [Op(';')] + after)[|first| + 1..] == after
  {
  }

  // ----- commands that leave the environment alone -----

  /** Whatever the environment, it stays, so all is expanded in the same one. */
  ghost predicate Still(ts: seq<Token>) {
    forall see :: StillIn(see, ts)
  }

  ghost predicate StillIn(see: Sight, ts: seq<Token>) {
    Left(see, ts) == see.env && Played(see, ts) == ResolveAll(see, ts)
  }

  /** One command whose first word neither is `export` nor assigns. */
  predicate Inert(command: seq<Token>) {
    && Op(';') !in command
    && command != [] && (command[0].Op? || (command[0] != W("export") && AssignedName(command[0].text) == None))
  }

  lemma InertIsStill(command: seq<Token>)
    requires Inert(command)
    ensures Still(command)
  {
    SemiIs(command, []);
    forall see ensures StillIn(see, command) {
      var words := Leading(command);
      if words != [] {
        assert words[0] == command[0];
      }
    }
  }

  lemma StillBoth(a: seq<Token>, b: seq<Token>)
    requires Still(a) && Still(b)
    ensures Still(a + [Op(';')] + b)
  {
    forall see ensures StillIn(see, a + [Op(';')] + b) {
      assert StillIn(see, a);
      assert StillIn(see, b);
      StillBothIn(see, a, b);
    }
  }

  lemma StillBothIn(see: Sight, a: seq<Token>, b: seq<Token>)
    requires StillIn(see, a) && StillIn(see, b)
    ensures StillIn(see, a + [Op(';')] + b)
  {
    assert Later(see, a) == see;
    PlayedConcat(see, a, b);
    ResolveConcat(see, a + [Op(';')], b);
    ResolveConcat(see, a, [Op(';')]);
    assert ResolveAll(see, [Op(';')]) == [Op(';')];
  }

  lemma ResolveConcat(see: Sight, a: seq<Token>, b: seq<Token>)
    ensures ResolveAll(see, a + b) == ResolveAll(see, a) + ResolveAll(see, b)
  {
  }

  lemma {:induction false} StillLines(lines: seq<seq<Token>>)
    requires lines != [] && forall i :: 0 <= i < |lines| ==> Still(lines[i])
    ensures Still(JoinTokens(lines))
  {
    var n := |lines| - 1;
    if n > 0 {
      StillLines(lines[..n]);
      StillBoth(JoinTokens(lines[..n]), lines[n]);
    }
  }

  lemma {:induction false} JoinTokensConcat(a: seq<seq<Token>>, b: seq<seq<Token>>)
    requires a != [] && b != []
    ensures JoinTokens(a + b) == JoinTokens(a) + [Op(';')] + JoinTokens(b)
  {
    var n := |b| - 1;
    assert (a + b)[..|a| + n] == a + b[..n];
    if n == 0 {
      assert a + b[..0] == a;
    } else {
      JoinTokensConcat(a, b[..n]);
      Nested(JoinTokens(a), JoinTokens(b[..n]), b[n]);
    }
  }

  lemma {:induction false} ResolveLines(see: Sight, lines: seq<seq<Token>>, values: seq<seq<Token>>)
    requires |lines| == |values| && forall i :: 0 <= i < |lines| ==> ResolveAll(see, lines[i]) == values[i]
    ensures ResolveAll(see, JoinTokens(lines)) == JoinTokens(values)
  {
    var n := |lines| - 1;
    if n > 0 {
      ResolveLines(see, lines[..n], values[..n]);
      ResolveConcat(see, JoinTokens(lines[..n]) + [Op(';')], lines[n]);
      ResolveConcat(see, JoinTokens(lines[..n]), [Op(';')]);
    }
  }

  lemma {:induction false} LaterConcat(see: Sight, a: seq<seq<Token>>, b: seq<seq<Token>>)
    requires a != [] && b != []
    ensures Later(see, JoinTokens(a + b)) == Later(Later(see, JoinTokens(a)), JoinTokens(b))
  {
    JoinTokensConcat(a, b);
    PlayedConcat(see, JoinTokens(a), JoinTokens(b));
  }

  // ----- assignments -----

  lemma {:induction false} NameEndIs(name: string, rest: Text)
    requires forall i :: 0 <= i < |name| ==> NameChar(name[i])
    ensures NameEnd(Chars(name) + [Char('=')] + rest) == |name|
  {
    var t := Chars(name) + [Char('=')] + rest;
    if name != "" {
      assert t[1..] == Chars(name[1..]) + [Char('=')] + rest;
      NameEndIs(name[1..], rest);
    }
  }

  lemma AssignsTo(name: string, rest: Text)
    requires EnvName(name)
    ensures var t := Chars(name) + [Char('=')] + rest;
            AssignedName(t) == Some(name) && NameEnd(t) == |name| && t[NameEnd(t) + 1..] == rest
  {
    NameEndIs(name, rest);
    var t := Chars(name) + [Char('=')] + rest;
    assert t[..|name|] == Chars(name);
    assert StringOf(Chars(name)) == name;
  }

  lemma {:induction false} AssignedOne(see: Sight, name: string, rest: Text, plain: bool)
    requires EnvName(name)
    ensures Assigned(see, [Word(Chars(name) + [Char('=')] + rest, plain)]) == see.env[name := Value(see, rest)]
  {
    var t := Word(Chars(name) + [Char('=')] + rest, plain);
    AssignsTo(name, rest);
    assert [t][..0] == [];
    assert see.(env := see.env) == see;
  }

  lemma {:induction false} LeadingOne(t: Token, more: seq<Token>)
    requires t.Word? && (more == [] || more[0].Op?)
    ensures Leading([t] + more) == [t] && ([t] + more)[LeadingLength([t] + more)..] == more
  {
    assert ([t] + more)[1..] == more;
  }

  /** `export name=value`. */
  lemma {:induction false} ExportSets(see: Sight, name: string, rest: Text)
    requires EnvName(name)
    ensures After(see, [W("export"), Word(Chars(name) + [Char('=')] + rest, true)]) == see.env[name := Value(see, rest)]
  {
    var t := Word(Chars(name) + [Char('=')] + rest, true);
    var command := [W("export"), t];
    LeadingOne(t, []);
    assert [t] + [] == [t] && command[1..] == [t];
    assert Leading(command) == [W("export")] + [t];
    assert command[LeadingLength(command)..] == [];
    assert Leading(command)[1..] == [t];
    AssignedOne(see, name, rest, true);
  }

  /** `name=value`, alone or before `|| ...`. */
  lemma {:induction false} AssignmentSets(see: Sight, name: string, rest: Text, plain: bool, more: seq<Token>)
    requires EnvName(name) && (more == [] || (|more| >= 2 && more[0] == Op('|') && more[1] == Op('|')))
    ensures After(see, [Word(Chars(name) + [Char('=')] + rest, plain)] + more) == see.env[name := Value(see, rest)]
  {
    var t := Word(Chars(name) + [Char('=')] + rest, plain);
    LeadingOne(t, more);
    AssignsTo(name, rest);
    ExportIsNoAssignment();
    assert t != W("export");
    AssignedOne(see, name, rest, plain);
  }

  lemma ExportIsNoAssignment()
    ensures AssignedName(W("export").text) == None
  {
    NoEqualsNoName(W("export").text);
  }

  lemma NoEqualsNoName(t: Text)
    requires Char('=') !in t
    ensures AssignedName(t) == None
  {
    var n := NameEnd(t);
    if n < |t| {
      assert t[n] in t;
    }
  }
}
