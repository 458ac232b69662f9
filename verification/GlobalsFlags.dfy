/**
 * What each global flag does, wherever it stands: with its value in the next argument, with the value
 * inline, without any value; and which arguments are none of them.
 */
module GlobalsFlags {
  import opened Util
  import opened Globals

  /** The names of the flags that take a value, and of the switches. */
  const VALUE_FLAGS := ["--config-dir", "--socket", "--room"]
  const SWITCHES := ["--json", "-q", "--quiet", "-v", "--verbose"]

  lemma {:induction false} EqualsBehind(name: string, v: string)
    requires '=' !in name
    ensures Equals(name + "=" + v) == Some(|name|)
  {
    var s := name + "=" + v;
    if |name| > 0 {
      EqualsBehind(name[1..], v);
      assert s[1..] == name[1..] + "=" + v;
      assert s[0] == name[0];
    }
  }

  /** An inline value is everything behind the first `=`, whatever it looks like. */
  lemma InlineSplits(name: string, v: string)
    requires "-" <= name && '=' !in name
    ensures NameOf(name + "=" + v) == name && Inline(name + "=" + v) == Some(v)
  {
    EqualsBehind(name, v);
    var s := name + "=" + v;
    assert s[..|name|] == name && s[|name| + 1..] == v;
    assert s[0] == '-';
  }

  lemma WholeName(name: string)
    requires '=' !in name
    ensures NameOf(name) == name && Inline(name).None?
  {
    NoEquals(name);
  }

  lemma Step(g: Flags, args: seq<string>)
    requires |args| >= 1
    ensures Parse(g, args) == Behind(First(g, args).rest, Parse(First(g, args).flags, args[Used(args)..]))
  {
  }

  lemma SkipOne(g: Flags, h: Flags, arg: string, tail: seq<string>)
    requires First(g, [arg] + tail) == Parsed(h, []) && Used([arg] + tail) == 1
    ensures Parse(g, [arg] + tail) == Parse(h, tail)
  {
    Step(g, [arg] + tail);
    assert ([arg] + tail)[1..] == tail;
    assert [] + Parse(h, tail).rest == Parse(h, tail).rest;
  }

  lemma SkipTwo(g: Flags, h: Flags, arg: string, v: string, tail: seq<string>)
    requires First(g, [arg, v] + tail) == Parsed(h, []) && Used([arg, v] + tail) == 2
    ensures Parse(g, [arg, v] + tail) == Parse(h, tail)
  {
    Step(g, [arg, v] + tail);
    assert ([arg, v] + tail)[2..] == tail;
    assert [] + Parse(h, tail).rest == Parse(h, tail).rest;
  }

  /** The value of a flag is the next argument, or given inline, or missing at the end. */
  lemma FlagTakes(g: Flags, h: Flags, h0: Flags, name: string, v: string, tail: seq<string>)
    requires name in VALUE_FLAGS && SetValue(g, name, v) == h && SetValue(g, name, "") == h0
    ensures Parse(g, [name, v] + tail) == Parse(h, tail)
    ensures Parse(g, [name + "=" + v] + tail) == Parse(h, tail)
    ensures Parse(g, [name]) == Parsed(h0, [])
  {
    WholeName(name);
    InlineSplits(name, v);
    SkipTwo(g, h, name, v, tail);
    SkipOne(g, h, name + "=" + v, tail);
    assert [name] + [] == [name];
    SkipOne(g, h0, name, []);
  }

  /** `--config-dir` sets its own value, whatever it looks like, given either way; a missing one is empty. */
  lemma ConfigDirIsSet(g: Flags, v: string, tail: seq<string>)
    ensures Parse(g, ["--config-dir", v] + tail) == Parse(g.(configDir := v), tail)
    ensures Parse(g, ["--config-dir=" + v] + tail) == Parse(g.(configDir := v), tail)
    ensures Parse(g, ["--config-dir"]) == Parsed(g.(configDir := ""), [])
  {
    FlagTakes(g, g.(configDir := v), g.(configDir := ""), "--config-dir", v, tail);
    assert "--config-dir" + "=" == "--config-dir=";
  }

  /** So does `--socket`. */
  lemma SocketIsSet(g: Flags, v: string, tail: seq<string>)
    ensures Parse(g, ["--socket", v] + tail) == Parse(g.(socket := v), tail)
    ensures Parse(g, ["--socket=" + v] + tail) == Parse(g.(socket := v), tail)
    ensures Parse(g, ["--socket"]) == Parsed(g.(socket := ""), [])
  {
    FlagTakes(g, g.(socket := v), g.(socket := ""), "--socket", v, tail);
    assert "--socket" + "=" == "--socket=";
  }

  /** And `--room`. */
  lemma RoomIsSet(g: Flags, v: string, tail: seq<string>)
    ensures Parse(g, ["--room", v] + tail) == Parse(g.(room := v), tail)
    ensures Parse(g, ["--room=" + v] + tail) == Parse(g.(room := v), tail)
    ensures Parse(g, ["--room"]) == Parsed(g.(room := ""), [])
  {
    FlagTakes(g, g.(room := v), g.(room := ""), "--room", v, tail);
    assert "--room" + "=" == "--room=";
  }

  lemma SwitchTakesNothing(g: Flags, h: Flags, name: string, v: string, tail: seq<string>)
    requires name in SWITCHES && SetSwitch(g, name) == h
    ensures Parse(g, [name] + tail) == Parse(h, tail)
    ensures Parse(g, [name + "=" + v] + tail) == Parse(h, tail)
  {
    WholeName(name);
    InlineSplits(name, v);
    SkipOne(g, h, name, tail);
    SkipOne(g, h, name + "=" + v, tail);
  }

  /** `--json` sets its own field and takes no argument; an inline value is ignored. */
  lemma JsonIsSet(g: Flags, v: string, tail: seq<string>)
    ensures Parse(g, ["--json"] + tail) == Parse(g.(json := true), tail)
    ensures Parse(g, ["--json=" + v] + tail) == Parse(g.(json := true), tail)
  {
    SwitchTakesNothing(g, g.(json := true), "--json", v, tail);
    assert "--json" + "=" == "--json=";
  }

  /** So do `-q` and `--quiet`. */
  lemma QuietIsSet(g: Flags, tail: seq<string>)
    ensures Parse(g, ["-q"] + tail) == Parse(g.(quiet := true), tail)
    ensures Parse(g, ["--quiet"] + tail) == Parse(g.(quiet := true), tail)
  {
    SwitchTakesNothing(g, g.(quiet := true), "-q", "", tail);
    SwitchTakesNothing(g, g.(quiet := true), "--quiet", "", tail);
  }

  /** And `-v` and `--verbose`. */
  lemma VerboseIsSet(g: Flags, tail: seq<string>)
    ensures Parse(g, ["-v"] + tail) == Parse(g.(verbose := true), tail)
    ensures Parse(g, ["--verbose"] + tail) == Parse(g.(verbose := true), tail)
  {
    SwitchTakesNothing(g, g.(verbose := true), "-v", "", tail);
    SwitchTakesNothing(g, g.(verbose := true), "--verbose", "", tail);
  }

  /** The argument is the name, or the name with an inline value. */
  predicate Names(arg: string, name: string) {
    arg == name || name + "=" <= arg
  }

  lemma NamesIff(arg: string, name: string)
    requires "-" <= name && '=' !in name
    ensures NameOf(arg) == name <==> Names(arg, name)
  {
    if Inline(arg).Some? {
      var k := Equals(arg).value;
      assert arg[..k + 1] == arg[..k] + "=";
    }
    if arg == name {
      WholeName(name);
    } else if name + "=" <= arg {
      var v := arg[|name| + 1..];
      assert arg == name + "=" + v;
      InlineSplits(name, v);
    }
  }

  /** An argument is a global flag if and only if it is the name of one, or one with an inline value. */
  lemma GlobalIff(arg: string)
    ensures IsGlobal(arg) <==> exists name :: name in VALUE_FLAGS + SWITCHES && Names(arg, name)
  {
    forall name | name in VALUE_FLAGS + SWITCHES ensures NameOf(arg) == name <==> Names(arg, name) {
      NamesIff(arg, name);
    }
    assert IsGlobal(arg) <==> NameOf(arg) in VALUE_FLAGS + SWITCHES;
  }

  /** Every other argument stays in the remainder, before what the rest leaves there. */
  lemma OthersStay(g: Flags, arg: string, tail: seq<string>)
    requires forall name :: name in VALUE_FLAGS + SWITCHES ==> !Names(arg, name)
    ensures Parse(g, [arg] + tail) == Parsed(Parse(g, tail).flags, [arg] + Parse(g, tail).rest)
  {
    GlobalIff(arg);
    Step(g, [arg] + tail);
    assert ([arg] + tail)[1..] == tail;
  }
}
