/**
 * Global command-line flags of the shared-go client: the parser that pulls them out of any argument
 * list, and the printer that hands them to a daemon the client spawns.
 */
module Globals {
  import opened Util

  datatype Flags = Flags(configDir: string, socket: string, room: string, json: bool, quiet: bool, verbose: bool)

  const NO_FLAGS := Flags("", "", "", false, false, false)

  // ---- one argument ----

  /** Where the first `=` is. */
  function Equals(s: string): (r: Option<nat>)
    ensures r.Some? ==> r.value < |s| && s[r.value] == '='
  {
    if |s| == 0 then None
    else if s[0] == '=' then Some(0)
    else var r := Equals(s[1..]); if r.Some? then Some(r.value + 1) else None
  }

  /** The name of an argument and the value given inline; only a dashed argument can have one. */
  function NameOf(arg: string): string {
    if Inline(arg).Some? then arg[..Equals(arg).value] else arg
  }

  function Inline(arg: string): Option<string> {
    if "-" <= arg && Equals(arg).Some? then Some(arg[Equals(arg).value + 1..]) else None
  }

  predicate TakesValue(name: string) {
    name == "--config-dir" || name == "--socket" || name == "--room"
  }

  predicate IsSwitch(name: string) {
    name == "--json" || name == "-q" || name == "--quiet" || name == "-v" || name == "--verbose"
  }

  predicate IsGlobal(arg: string) {
    TakesValue(NameOf(arg)) || IsSwitch(NameOf(arg))
  }

  function SetValue(g: Flags, name: string, value: string): Flags {
    match name
    case "--config-dir" => g.(configDir := value)
    case "--socket" => g.(socket := value)
    case _ => g.(room := value)
  }

  function SetSwitch(g: Flags, name: string): Flags {
    match name
    case "--json" => g.(json := true)
    case "-q" => g.(quiet := true)
    case "--quiet" => g.(quiet := true)
    case _ => g.(verbose := true)
  }

  // ---- the parser ----

  datatype Parsed = Parsed(flags: Flags, rest: seq<string>)

  /** A flag whose value is the next argument. */
  predicate WantsNext(arg: string) {
    TakesValue(NameOf(arg)) && Inline(arg).None?
  }

  /** How many arguments the first one uses up: a flag without inline value takes the next one. */
  function Used(args: seq<string>): (n: nat)
    requires |args| >= 1
    ensures 1 <= n <= |args| && n <= 2
  {
    if WantsNext(args[0]) && |args| >= 2 then 2 else 1
  }

  /** The value of a flag that takes one: inline, else the next argument, else empty. */
  function ValueOf(args: seq<string>): string
    requires |args| >= 1
  {
    if Inline(args[0]).Some? then Inline(args[0]).value else if |args| >= 2 then args[1] else ""
  }

  /** The flags and the remainder after the first argument. */
  function First(g: Flags, args: seq<string>): Parsed
    requires |args| >= 1
  {
    var name := NameOf(args[0]);
    if TakesValue(name) then Parsed(SetValue(g, name, ValueOf(args)), [])
    else if IsSwitch(name) then Parsed(SetSwitch(g, name), [])
    else Parsed(g, [args[0]])
  }

  function Parse(g: Flags, args: seq<string>): Parsed
    decreases |args|
  {
    if |args| == 0 then Parsed(g, [])
    else Behind(First(g, args).rest, Parse(First(g, args).flags, args[Used(args)..]))
  }

  function Behind(before: seq<string>, p: Parsed): Parsed {
    Parsed(p.flags, before + p.rest)
  }

  /** One turn of the loop. */
  lemma Turn(g: Flags, rest: seq<string>, tail: seq<string>)
    requires |tail| >= 1
    ensures Behind(rest, Parse(g, tail))
         == Behind(rest + First(g, tail).rest, Parse(First(g, tail).flags, tail[Used(tail)..]))
  {
    Assoc(rest, First(g, tail).rest, Parse(First(g, tail).flags, tail[Used(tail)..]).rest);
  }

  /** parseGlobals. */
  method ParseGlobals(args: seq<string>) returns (g: Flags, rest: seq<string>)
    ensures Parsed(g, rest) == Parse(NO_FLAGS, args)
  {
    g, rest := NO_FLAGS, [];
    var i := 0;
    while i < |args|
      invariant 0 <= i <= |args|
      invariant Parse(NO_FLAGS, args) == Behind(rest, Parse(g, args[i..]))
    {
      ghost var tail, first := args[i..], First(g, args[i..]);
      ghost var i1, rest1 := i + Used(tail), rest + first.rest;
      Turn(g, rest, tail);
      var arg := args[i];
      var name, value := NameOf(arg), "";
      if TakesValue(name) {
        if Inline(arg).Some? {
          value := Inline(arg).value;
        } else if i + 1 < |args| {
          i := i + 1;
          value := args[i];
        }
        g := SetValue(g, name, value);
      } else if IsSwitch(name) {
        g := SetSwitch(g, name);
      } else {
        rest := rest + [arg];
      }
      i := i + 1;
      assert i == i1 && g == first.flags;
      assert rest == rest1;
      assert args[i..] == tail[Used(tail)..];
    }
  }

  /** spawnArgs: the flags a spawned daemon inherits, empty ones left out. */
  method SpawnArgs(g: Flags) returns (a: seq<string>)
    ensures a == Spawned(g)
  {
    a := [];
    if g.configDir != "" {
      a := a + ["--config-dir", g.configDir];
    }
    if g.socket != "" {
      a := a + ["--socket", g.socket];
    }
    if g.room != "" {
      a := a + ["--room", g.room];
    }
  }

  function Given(name: string, value: string): seq<string> {
    if value == "" then [] else [name, value]
  }

  function Spawned(g: Flags): seq<string> {
    Given("--config-dir", g.configDir) + Given("--socket", g.socket) + Given("--room", g.room)
  }

  // ---- parsing composes ----

  /** The last argument is not a flag still waiting for its value. */
  predicate Complete(args: seq<string>)
    decreases |args|
  {
    |args| == 0
    || ((WantsNext(args[0]) ==> |args| >= 2) && Complete(args[Used(args)..]))
  }

  /** Parsing two lists one after the other, the second from the flags of the first. */
  function Then(p: Parsed, args: seq<string>): Parsed {
    Behind(p.rest, Parse(p.flags, args))
  }

  lemma ValueApart(a: seq<string>, b: seq<string>)
    requires |a| >= 1 && (WantsNext(a[0]) ==> |a| >= 2) && TakesValue(NameOf(a[0]))
    ensures ValueOf(a + b) == ValueOf(a)
  {
    assert (a + b)[0] == a[0];
    if WantsNext(a[0]) {
      assert (a + b)[1] == a[1];
    }
  }

  lemma FirstApart(g: Flags, a: seq<string>, b: seq<string>)
    requires |a| >= 1 && (WantsNext(a[0]) ==> |a| >= 2)
    ensures First(g, a + b) == First(g, a)
  {
    assert (a + b)[0] == a[0];
    if TakesValue(NameOf(a[0])) {
      ValueApart(a, b);
    }
  }

  lemma UsedApart(a: seq<string>, b: seq<string>)
    requires |a| >= 1 && (WantsNext(a[0]) ==> |a| >= 2)
    ensures Used(a + b) == Used(a) && (a + b)[Used(a)..] == a[Used(a)..] + b
  {
    assert (a + b)[0] == a[0];
  }

  /** Flags act where they stand: a complete list parses the same whatever follows it. */
  lemma {:induction false} ParseConcat(g: Flags, a: seq<string>, b: seq<string>)
    requires Complete(a)
    ensures Parse(g, a + b) == Then(Parse(g, a), b)
    decreases |a|
  {
    if |a| == 0 {
      assert a + b == b;
      assert [] + Parse(g, b).rest == Parse(g, b).rest;
    } else {
      UsedApart(a, b);
      FirstApart(g, a, b);
      var f, more := First(g, a), a[Used(a)..];
      ParseConcat(f.flags, more, b);
      Assoc(f.rest, Parse(f.flags, more).rest, Parse(Parse(f.flags, more).flags, b).rest);
    }
  }

  // ---- printing and parsing ----

  /** `over` wins wherever it is given; the printer drops empty values and the switches. */
  function Inherit(base: Flags, over: Flags): Flags {
    base.(configDir := if over.configDir == "" then base.configDir else over.configDir,
          socket := if over.socket == "" then base.socket else over.socket,
          room := if over.room == "" then base.room else over.room)
  }

  lemma ParseGiven(g: Flags, name: string, value: string)
    requires TakesValue(name)
    ensures Complete(Given(name, value))
    ensures Parse(g, Given(name, value)) == Parsed(if value == "" then g else SetValue(g, name, value), [])
  {
    FlagHasNoEquals(name);
    if value != "" {
      var a := [name, value];
      assert Used(a) == 2 && a[2..] == [];
      assert Parse(g, a) == Behind([], Parse(SetValue(g, name, value), []));
    }
  }

  lemma FlagHasNoEquals(name: string)
    requires TakesValue(name)
    ensures Equals(name).None?
  {
    NoEquals(name);
  }

  lemma {:induction false} NoEquals(s: string)
    requires '=' !in s
    ensures Equals(s).None?
  {
    if |s| > 0 {
      NoEquals(s[1..]);
    }
  }

  lemma {:induction false} CompleteConcat(a: seq<string>, b: seq<string>)
    requires Complete(a) && Complete(b)
    ensures Complete(a + b)
    decreases |a|
  {
    if |a| == 0 {
      assert a + b == b;
    } else {
      UsedApart(a, b);
      CompleteConcat(a[Used(a)..], b);
    }
  }

  lemma GivenBehind(base: Flags, a: seq<string>, name: string, value: string)
    requires Complete(a) && Parse(base, a).rest == [] && TakesValue(name)
    ensures Complete(a + Given(name, value))
    ensures
      var g := Parse(base, a).flags;
      Parse(base, a + Given(name, value)) == Parsed(if value == "" then g else SetValue(g, name, value), [])
  {
    ParseGiven(Parse(base, a).flags, name, value);
    CompleteConcat(a, Given(name, value));
    ParseConcat(base, a, Given(name, value));
  }

  lemma ParseSpawned(base: Flags, g: Flags)
    ensures Complete(Spawned(g)) && Parse(base, Spawned(g)) == Parsed(Inherit(base, g), [])
  {
    var c, s := Given("--config-dir", g.configDir), Given("--socket", g.socket);
    ParseGiven(base, "--config-dir", g.configDir);
    GivenBehind(base, c, "--socket", g.socket);
    GivenBehind(base, c + s, "--room", g.room);
  }

  /**
   * Printed flags put anywhere an argument may start are recovered, whatever the values look like,
   * and every other argument is parsed as if they were not there.
   */
  lemma SpawnedInside(base: Flags, a: seq<string>, g: Flags, b: seq<string>)
    requires Complete(a)
    ensures
      var before := Parse(base, a);
      Parse(base, a + Spawned(g) + b) == Then(Parsed(Inherit(before.flags, g), before.rest), b)
  {
    var before := Parse(base, a);
    ParseSpawned(before.flags, g);
    ParseConcat(base, a, Spawned(g));
    CompleteConcat(a, Spawned(g));
    ParseConcat(base, a + Spawned(g), b);
    assert before.rest + [] == before.rest;
  }

  // ---- the remainder ----

  ghost predicate Plain(args: seq<string>) {
    forall i :: 0 <= i < |args| ==> !IsGlobal(args[i])
  }

  lemma {:induction false} PlainIsComplete(args: seq<string>)
    requires Plain(args)
    ensures Complete(args)
  {
    if |args| > 0 {
      assert !IsGlobal(args[0]);
      PlainIsComplete(args[1..]);
    }
  }

  lemma {:induction false} RestIsShorter(g: Flags, args: seq<string>)
    ensures |Parse(g, args).rest| <= |args|
    decreases |args|
  {
    if |args| > 0 {
      RestIsShorter(First(g, args).flags, args[Used(args)..]);
    }
  }

  /** The remainder is the whole list exactly when no argument names a global flag; the flags then stay. */
  lemma {:induction false} PlainIffUnchanged(g: Flags, args: seq<string>)
    ensures Parse(g, args).rest == args <==> Plain(args)
    ensures Plain(args) ==> Parse(g, args).flags == g
  {
    if |args| > 0 {
      var tail := args[1..];
      assert args == [args[0]] + tail;
      if IsGlobal(args[0]) {
        RestIsShorter(First(g, args).flags, args[Used(args)..]);
      } else {
        PlainIffUnchanged(g, tail);
        assert Parse(g, args).rest == [args[0]] + Parse(g, tail).rest;
        assert ([args[0]] + Parse(g, tail).rest)[1..] == Parse(g, tail).rest;
        assert forall i :: 0 <= i < |tail| ==> tail[i] == args[i + 1];
        assert forall i :: 1 <= i < |args| ==> args[i] == tail[i - 1];
      }
    }
  }

  lemma {:induction false} RestIsPlain(g: Flags, args: seq<string>)
    ensures Plain(Parse(g, args).rest)
    decreases |args|
  {
    if |args| > 0 {
      RestIsPlain(First(g, args).flags, args[Used(args)..]);
    }
  }

  /** Parsing the remainder again changes nothing. */
  lemma ReparseIsIdentity(g: Flags, args: seq<string>)
    ensures Parse(Parse(g, args).flags, Parse(g, args).rest) == Parse(g, args)
  {
    RestIsPlain(g, args);
    PlainIffUnchanged(Parse(g, args).flags, Parse(g, args).rest);
  }

  // ---- spawning ----

  lemma SpawnedBefore(g: Flags, cmd: seq<string>)
    requires Plain(cmd)
    ensures Parse(NO_FLAGS, Spawned(g) + cmd) == Parsed(Inherit(NO_FLAGS, g), cmd)
  {
    ParseSpawned(NO_FLAGS, g);
    ParseConcat(NO_FLAGS, Spawned(g), cmd);
    PlainIffUnchanged(Inherit(NO_FLAGS, g), cmd);
    assert [] + cmd == cmd;
  }

  lemma SpawnedBehind(g: Flags, cmd: seq<string>)
    requires Plain(cmd)
    ensures Parse(NO_FLAGS, cmd + Spawned(g)) == Parsed(Inherit(NO_FLAGS, g), cmd)
  {
    PlainIsComplete(cmd);
    PlainIffUnchanged(NO_FLAGS, cmd);
    ParseConcat(NO_FLAGS, cmd, Spawned(g));
    ParseSpawned(NO_FLAGS, g);
    assert cmd + [] == cmd;
  }

  /**
   * A daemon spawned with the printed flags, before or behind its command, parses the three values
   * and the command; the switches are not inherited.
   */
  lemma SpawnRoundTrip(g: Flags, cmd: seq<string>)
    requires Plain(cmd)
    ensures
      var expected := Parsed(Flags(g.configDir, g.socket, g.room, false, false, false), cmd);
      Parse(NO_FLAGS, Spawned(g) + cmd) == expected && Parse(NO_FLAGS, cmd + Spawned(g)) == expected
  {
    SpawnedBefore(g, cmd);
    SpawnedBehind(g, cmd);
  }
}
