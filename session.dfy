/**
 * The compiler's module-level `state` (src/index.js:13-26) as the class `State`, with the
 * operations that change it: `registerCmd`, `unregisterCmd`, `compileCmd`, `compileCmds`
 * and `finalize`. Each method is proved to agree with the functions of `Compiler` and
 * `Pack`, about which the properties are proved.
 */
module Session {

  import opened Outcomes
  import opened Strings
  import opened Values
  import opened Compiler
  import opened Pack
  import opened Ids

  /** The commands registered from the start (src/index.js:24); the list names `say` and
      `toggledownfall` twice, which a set does not record. */
  const BuiltinCommands: set<string> := {
    "ability", "advancement", "agent", "allowlist", "alwaysday", "attribute", "ban", "ban-ip",
    "banlist", "bossbar", "camerashake", "changesetting", "classroommode", "clear",
    "clearspawnpoint", "clone", "closechat", "closewebsocket", "code", "codebuilder", "connect",
    "data", "datapack", "daylock", "debug", "dedicatedwsserver", "defaultgamemode", "deop",
    "dialogue", "difficulty", "effect", "enableencryption", "enchant", "event", "execute",
    "experience", "fill", "fog", "forceload", "function", "gamemode", "gamerule", "gametest",
    "getchunkdata", "getchunks", "geteduclientinfo", "geteduserverinfo", "getlocalplayername",
    "getspawnpoint", "gettopsolidblock", "give", "globalpause", "help", "immutableworld",
    "item", "kick", "kill", "lesson", "list", "listd", "locate", "locatebiome", "loot", "me",
    "mobevent", "msg", "music", "op", "ops", "pardon", "pardon-ip", "particle", "permission",
    "playanimation", "playsound", "publish", "querytarget", "recipe", "reload", "remove",
    "replaceitem", "ride", "save", "save-all", "save-off", "save-on", "say", "schedule",
    "scoreboard", "seed", "setblock", "setidletimeout", "setmaxplayers", "setworldspawn",
    "spawnitem", "spawnpoint", "spectate", "spreadplayers", "stop", "stopsound", "structure",
    "summon", "tag", "takepicture", "team", "teammsg", "teleport", "tell", "tellraw", "testfor",
    "testforblock", "testforblocks", "tickingarea", "time", "title", "titleraw", "tm",
    "toggledownfall", "tp", "trigger", "videostream", "w", "wb", "weather", "whitelist",
    "worldborder", "worldbuilder", "wsserver", "xp", "achievement", "banip", "blockdata",
    "broadcast", "chunk", "clearfixedinv", "detect", "entitydata", "executeasself", "home",
    "position", "mixer", "resupply", "setfixedinvslot", "setfixedinvslots", "setspawn", "solid",
    "stats", "transferserver", "unban"
  }

  /** The two lines of the load function that (re)create the objective `v`. */
  function VarSetup(v: string): string
  {
    "scoreboard objectives remove " + v + "\nscoreboard objectives add " + v + " dummy"
  }

  /** The line of the load function that sets the constant `c`. */
  function ConstSetup(c: int): string
  {
    "scoreboard players set " + IntText(c) + " __temp__ " + IntText(c)
  }

  /** The code of the load function (src/index.js:306-309). */
  function BootstrapCode(vars: seq<string>, consts: seq<int>): string
  {
    Join(seq(|vars|, i requires 0 <= i < |vars| => VarSetup(vars[i])), "\n") + "\n"
    + Join(seq(|consts|, i requires 0 <= i < |consts| => ConstSetup(consts[i])), "\n")
  }

  /** The lines the load function is meant to hold: for each variable in order a `remove`
      and an `add` line, then for each constant in order a `set` line. */
  function VarLines(vars: seq<string>): seq<string>
  {
    if |vars| == 0 then []
    else ["scoreboard objectives remove " + vars[0], "scoreboard objectives add " + vars[0] + " dummy"]
         + VarLines(vars[1..])
  }

  function ConstLines(consts: seq<int>): (r: seq<string>)
    ensures |r| == |consts| && forall i :: 0 <= i < |r| ==> r[i] == ConstSetup(consts[i])
  {
    seq(|consts|, i requires 0 <= i < |consts| => ConstSetup(consts[i]))
  }

  /** A variable's setup is its two lines. */
  lemma VarSetupLines(v: string)
    requires '\n' !in v
    ensures Split(VarSetup(v), '\n')
            == ["scoreboard objectives remove " + v, "scoreboard objectives add " + v + " dummy"]
  {
    var a, b := "scoreboard objectives remove " + v, "scoreboard objectives add " + v + " dummy";
    assert VarSetup(v) == a + ['\n'] + b;
    assert '\n' !in a by { NoLineFeedIn("scoreboard objectives remove ", v); }
    assert '\n' !in b by {
      NoLineFeedIn("scoreboard objectives add ", v);
      NoLineFeedIn("scoreboard objectives add " + v, " dummy");
    }
    TwoLines(a, b);
  }

  lemma TwoLines(a: string, b: string)
    requires '\n' !in a && '\n' !in b
    ensures Split(a + ['\n'] + b, '\n') == [a, b]
  {
    SplitConcat(a, b, '\n');
    SplitNoSeparator(a, '\n');
    SplitNoSeparator(b, '\n');
  }

  lemma NoLineFeedIn(x: string, y: string)
    requires '\n' !in x && '\n' !in y
    ensures '\n' !in x + y
  {
  }

  /** The joined variable setups split into the variables' lines. */
  lemma {:induction false} VarSetupsLines(vars: seq<string>)
    requires |vars| > 0 && forall i :: 0 <= i < |vars| ==> '\n' !in vars[i]
    ensures Split(Join(seq(|vars|, i requires 0 <= i < |vars| => VarSetup(vars[i])), "\n"), '\n') == VarLines(vars)
  {
    var setups := seq(|vars|, i requires 0 <= i < |vars| => VarSetup(vars[i]));
    VarSetupLines(vars[0]);
    if |vars| == 1 {
      assert VarLines(vars[1..]) == [];
    } else {
      var rest := vars[1..];
      assert setups[1..] == seq(|rest|, i requires 0 <= i < |rest| => VarSetup(rest[i]));
      VarSetupsLines(rest);
      SplitConcat(setups[0], Join(setups[1..], "\n"), '\n');
      assert Join(setups, "\n") == setups[0] + ['\n'] + Join(setups[1..], "\n");
    }
  }

  /** A constant's line holds no line feed. */
  lemma ConstSetupOneLine(c: int)
    ensures '\n' !in ConstSetup(c)
  {
    IntTextAvoids(c, '\n');
  }

  /**
   * The load function's code splits into exactly the intended lines, as long as there is at
   * least one variable and one constant (as there always is: `__temp__` and `-1`) and no
   * variable name holds a line feed.
   */
  lemma BootstrapLines(vars: seq<string>, consts: seq<int>)
    requires |vars| > 0 && |consts| > 0
    requires forall i :: 0 <= i < |vars| ==> '\n' !in vars[i]
    ensures Split(BootstrapCode(vars, consts), '\n') == VarLines(vars) + ConstLines(consts)
  {
    var vs := Join(seq(|vars|, i requires 0 <= i < |vars| => VarSetup(vars[i])), "\n");
    var cs := ConstLines(consts);
    assert Join(seq(|consts|, i requires 0 <= i < |consts| => ConstSetup(consts[i])), "\n") == Join(cs, "\n");
    SplitConcat(vs, Join(cs, "\n"), '\n');
    assert BootstrapCode(vars, consts) == vs + ['\n'] + Join(cs, "\n");
    VarSetupsLines(vars);
    forall i | 0 <= i < |cs|
      ensures '\n' !in cs[i]
    {
      ConstSetupOneLine(consts[i]);
    }
    SplitJoin(cs, '\n');
  }

  /** The compiler's state. */
  class State {
    /** Constants that need a score set for them, in insertion order (a `Set`). */
    var consts: seq<int>
    /** Dummy objectives to create, in insertion order (a `Set`). */
    var vars: seq<string>
    /** The number of the next generated function. */
    var n: nat
    /** The namespace for generated functions; `"f" + nid(10)` in the source, a parameter here. */
    const rng: string
    var cmds: set<string>
    var callbacks: map<string, Callback>

    ghost predicate Valid()
      reads this
    {
      NoDuplicates(consts) && NoDuplicates(vars)
      && |vars| > 0 && vars[0] == "__temp__" && |consts| > 0 && consts[0] == -1
      && RegistryValid(Reg())
    }

    function Reg(): Registry
      reads this
    {
      Registry(cmds, callbacks)
    }

    constructor(rng: string)
      ensures Valid()
      ensures this.rng == rng && consts == [-1] && vars == ["__temp__"] && n == 0
      ensures cmds == BuiltinCommands && callbacks == map[]
    {
      this.rng := rng;
      consts := [-1];
      vars := ["__temp__"];
      n := 0;
      cmds := BuiltinCommands;
      callbacks := map[];
    }

    /** `state.vars.add(v)`. */
    method TrackVar(v: string)
      requires Valid()
      modifies this
      ensures Valid()
      ensures vars == if v in old(vars) then old(vars) else old(vars) + [v]
      ensures consts == old(consts) && n == old(n) && Reg() == old(Reg())
    {
      if v !in vars {
        vars := vars + [v];
      }
    }

    /** `state.consts.add(c)`. */
    method TrackConst(c: int)
      requires Valid()
      modifies this
      ensures Valid()
      ensures consts == if c in old(consts) then old(consts) else old(consts) + [c]
      ensures vars == old(vars) && n == old(n) && Reg() == old(Reg())
    {
      if c !in consts {
        consts := consts + [c];
      }
    }

    /** `registerCmd(name, callback)`. */
    method RegisterCmd(name: string, callback: Option<Callback>)
      requires Valid()
      modifies this
      ensures Valid()
      ensures Reg() == Register(old(Reg()), name, callback)
      ensures consts == old(consts) && vars == old(vars) && n == old(n)
    {
      cmds := cmds + {name};
      if callback.None? {
        callbacks := callbacks - {name};
      } else {
        callbacks := callbacks[name := callback.value];
      }
    }

    /** `unregisterCmd(name)`. */
    method UnregisterCmd(name: string)
      requires Valid()
      modifies this
      ensures Valid()
      ensures Reg() == Unregister(old(Reg()), name)
      ensures consts == old(consts) && vars == old(vars) && n == old(n)
    {
      callbacks := callbacks - {name};
      cmds := cmds - {name};
    }

    /** `compileCmd(node)`: checks the node, compiles an `execute`'s `run` first and hoists
        several lines into a new function, or looks the command up in the registry. */
    method CompileCmd(node: Node, disk: Disk) returns (r: Result<seq<string>>)
      modifies this, disk
      ensures (r, Env(n, disk.files)) == CompileNode(old(Reg()), rng, Env(old(n), old(disk.files)), node)
      ensures Reg() == old(Reg()) && consts == old(consts) && vars == old(vars)
      ensures disk.tags == old(disk.tags)
      decreases node
    {
      if node.kind != "cmd" {
        return Err(NotCommandAst);
      }
      if node.cmd == "execute" {
        if node.run.None? {
          return Err(MissingRun);
        }
        var body := CompileCmd(node.run.value, disk);
        if body.Err? {
          return body;
        }
        var prefix := "execute " + ArgsText(node.args);
        if |body.value| > 1 {
          // Several lines: they go into a function of their own, which the execute runs.
          var name := ExecName(rng, n);
          n := n + 1;
          var written := disk.AddRawCmds(name, Join(body.value, "\n"), false);
          if written.Err? {
            return Err(written.error);
          }
          return Ok([prefix + " run function " + name]);
        } else if |body.value| == 1 {
          return Ok([prefix + " run " + body.value[0]]);
        }
        return Ok([prefix]);
      }
      if node.cmd in cmds {
        if node.cmd in callbacks {
          var out := callbacks[node.cmd](node.args);
          match out
          case Lines(lines) => return Ok(lines);
          case Text(text) => return Ok(TrimLines(Split(text, '\n')));
          case Raise(e) => return Err(e);
        }
        return Ok([node.cmd + " " + ArgsText(node.args)]);
      }
      return Err(NotRegistered(node.cmd));
    }

    /** `compileCmds(data)`: parses text, compiles the nodes in order, stops at the first
        error, which it annotates with the node's line, and finishes the lines. */
    method CompileCmds(data: Data, parse: Parser, disk: Disk) returns (r: Result<seq<string>>)
      modifies this, disk
      ensures (r, Env(n, disk.files)) == CompileAll(old(Reg()), rng, Env(old(n), old(disk.files)), parse, data)
      ensures Reg() == old(Reg()) && consts == old(consts) && vars == old(vars)
      ensures disk.tags == old(disk.tags)
    {
      var parsed := ParseData(parse, data);
      if parsed.Err? {
        return Err(parsed.error);
      }
      var code := CompileNodes(parsed.value, disk);
      if code.Err? {
        return Err(code.error);
      }
      return Ok(Finish(code.value));
    }

    /** The loop of `compileCmds`: the nodes are compiled in order until one fails. */
    method CompileNodes(nodes: seq<Node>, disk: Disk) returns (r: Result<seq<string>>)
      modifies this, disk
      ensures (r, Env(n, disk.files)) == CompileSeq(old(Reg()), rng, Env(old(n), old(disk.files)), nodes)
      ensures Reg() == old(Reg()) && consts == old(consts) && vars == old(vars)
      ensures disk.tags == old(disk.tags)
    {
      ghost var env0 := Env(n, disk.files);
      var code: seq<string> := [];
      var i := 0;
      while i < |nodes|
        invariant 0 <= i <= |nodes|
        invariant CompileSeq(Reg(), rng, env0, nodes[..i]) == (Ok(code), Env(n, disk.files))
        invariant Reg() == old(Reg()) && consts == old(consts) && vars == old(vars)
        invariant disk.tags == old(disk.tags)
      {
        assert nodes[..i] + [nodes[i]] == nodes[..i + 1];
        CompileSeqSnoc(Reg(), rng, env0, nodes[..i], nodes[i]);
        var out := CompileCmd(nodes[i], disk);
        if out.Err? {
          assert nodes[..i + 1] + nodes[i + 1..] == nodes;
          StopsAtFirstError(Reg(), rng, env0, nodes[..i + 1], nodes[i + 1..]);
          return Err(Annotate(nodes[i], out.error));
        }
        code := code + out.value;
        i := i + 1;
      }
      assert nodes[..i] == nodes;
      return Ok(code);
    }

    /** `finalize()`: adds the load function to the `minecraft:load` function tag and writes
        it, creating every tracked objective and setting every tracked constant. */
    method Finalize(disk: Disk) returns (r: Result<string>)
      requires Valid()
      modifies disk
      ensures disk.tags == WriteTag(old(disk.tags), "functions", "minecraft:load", [rng + ":load"], false).1
      ensures (r, disk.files) == WriteFunction(old(disk.files), rng + ":load", BootstrapCode(vars, consts), false)
      ensures IsName(rng) && (forall i :: 0 <= i < |vars| ==> '\n' !in vars[i]) ==>
                var path := "data/" + rng + "/functions/load.mcfunction";
                r == Ok(path)
                && Split(disk.files[path], '\n')
                   == Split(Current(old(disk.files), path), '\n') + VarLines(vars) + ConstLines(consts) + [""]
    {
      var loc := rng + ":load";
      // `minecraft:load` is a valid id, so adding to the tag always succeeds.
      LoadTagPath();
      var tagged := disk.AddTag("functions", "minecraft:load", [loc], false);
      assert tagged.Ok?;
      var before := disk.files;
      r := disk.AddRawCmds(loc, BootstrapCode(vars, consts), false);
      if IsName(rng) && (forall i :: 0 <= i < |vars| ==> '\n' !in vars[i]) {
        LoadFunctionLines(before, rng, vars, consts);
      }
    }
  }

  /** Writing the load function with a valid namespace appends its intended lines. */
  lemma LoadFunctionLines(files: map<string, string>, rng: string, vars: seq<string>, consts: seq<int>)
    requires IsName(rng) && |vars| > 0 && |consts| > 0
    requires forall i :: 0 <= i < |vars| ==> '\n' !in vars[i]
    ensures var path := "data/" + rng + "/functions/load.mcfunction";
            var (r, files') := WriteFunction(files, rng + ":load", BootstrapCode(vars, consts), false);
            r == Ok(path)
            && Split(files'[path], '\n') == Split(Current(files, path), '\n') + VarLines(vars) + ConstLines(consts) + [""]
  {
    LoadSpelling(rng);
    BootstrapLines(vars, consts);
    WrittenFunctionLines(files, rng, "load", BootstrapCode(vars, consts), VarLines(vars), ConstLines(consts));
  }

  /** `load` is a name, and the id and the path of the load function, spelled in two ways. */
  lemma LoadSpelling(ns: string)
    ensures IsName("load")
    ensures ns + ":" + "load" == ns + ":load"
    ensures "data/" + ns + "/functions/" + "load" + ".mcfunction" == "data/" + ns + "/functions/load.mcfunction"
  {
    assert "load"[1..] == "oad";
    assert forall i :: 0 <= i < |"oad"| ==> IsNameChar("oad"[i]);
    assert ns + ":" + "load" == ns + (":" + "load");
    assert "data/" + ns + "/functions/" + "load" + ".mcfunction" == "data/" + ns + ("/functions/" + "load" + ".mcfunction");
  }

  /** Writing code made of two groups of lines to a namespaced function appends both groups. */
  lemma WrittenFunctionLines(files: map<string, string>, ns: string, name: string, code: string,
                             first: seq<string>, second: seq<string>)
    requires IsName(ns) && IsName(name)
    requires Split(code, '\n') == first + second
    ensures var path := "data/" + ns + "/functions/" + name + ".mcfunction";
            var (r, files') := WriteFunction(files, ns + ":" + name, code, false);
            r == Ok(path)
            && Split(files'[path], '\n') == Split(Current(files, path), '\n') + first + second + [""]
  {
    var path := "data/" + ns + "/functions/" + name + ".mcfunction";
    FunctionPathNamespaced(ns, name);
    AppendedLines(Current(files, path), code, first, second);
  }

  /** Appending code made of two groups of lines keeps the old lines and adds both groups. */
  lemma AppendedLines(current: string, code: string, first: seq<string>, second: seq<string>)
    requires Split(code, '\n') == first + second
    ensures Split(WriteCode(current, code, false), '\n') == Split(current, '\n') + first + second + [""]
  {
    WriteCodeAppends(current, code);
    var c := Split(current, '\n');
    assert c + (first + second) + [""] == c + first + second + [""];
  }

  /** Where a function with a namespaced id lives. */
  lemma FunctionPathNamespaced(ns: string, name: string)
    requires IsName(ns) && IsName(name)
    ensures FunctionPath(ns + ":" + name) == Ok("data/" + ns + "/functions/" + name + ".mcfunction")
  {
    NameIsLocation(name);
    ResolveNamespaced("functions", ns, name, ".mcfunction", "data");
    assert '.' !in name by { NameTailAvoids(name[1..], '.'); assert name == [name[0]] + name[1..]; }
    assert "data" + "/" + ns + "/" + "functions" + "/" + name + ".mcfunction"
        == "data/" + ns + "/functions/" + name + ".mcfunction";
  }

  /** Where the `minecraft:load` function tag lives. */
  lemma LoadTagPath()
    ensures TagPath("functions", "minecraft:load").Ok?
  {
    TagPathNamespaced("functions", "minecraft", "load");
    assert "minecraft" + ":" + "load" == "minecraft:load";
  }

  /** Where a tag with a namespaced id lives. */
  lemma TagPathNamespaced(kind: string, ns: string, name: string)
    requires IsName(ns) && IsName(name)
    ensures TagPath(kind, ns + ":" + name) == Ok("data/" + ns + "/tags/" + kind + "/" + name + ".json")
  {
    NameIsLocation(name);
    ResolveNamespaced("tags/" + kind, ns, name, ".json", "data");
    assert '.' !in name by { NameTailAvoids(name[1..], '.'); assert name == [name[0]] + name[1..]; }
    assert "data" + "/" + ns + "/" + ("tags/" + kind) + "/" + name + ".json"
        == "data/" + ns + "/tags/" + kind + "/" + name + ".json";
  }

  /** A built-in command without a callback is written back as it came. */
  lemma BuiltinSayPassesThrough(rng: string, env: Env, word: string)
    ensures CompileNode(Registry(BuiltinCommands, map[]), rng, env, Node("cmd", "say", [Token(word)], None, None))
            == (Ok(["say " + word]), env)
  {
    assert "say" in BuiltinCommands;
    PassThroughRendersArgument(Registry(BuiltinCommands, map[]), rng, env, "say", Token(word));
    assert "say" + " " + word == "say " + word;
  }

  /** `say "a\"b"` loses the escape: the argument is written as `"a"b"`. */
  lemma SayQuotedKeepsRawText(rng: string, env: Env)
    ensures CompileNode(Registry(BuiltinCommands, map[]), rng, env,
                        Node("cmd", "say", [Quoted("a\"b")], None, None)).0
            == Ok(["say \"a\"b\""])
  {
    assert "say" in BuiltinCommands;
    PassThroughRendersArgument(Registry(BuiltinCommands, map[]), rng, env, "say", Quoted("a\"b"));
    assert "say" + " \"" + "a\"b" + "\"" == "say \"a\"b\"";
  }

  /** `execute as @a run say <word>` stays on one line. */
  lemma ExecuteSayInlined(rng: string, env: Env, word: string)
    ensures var say := Node("cmd", "say", [Token(word)], None, None);
            CompileNode(Registry(BuiltinCommands, map[]), rng, env,
                        Node("cmd", "execute", [Token("as"), Sel("a", Absent)], Some(say), None))
            == (Ok(["execute as @a run say " + word]), env)
  {
    var say := Node("cmd", "say", [Token(word)], None, None);
    BuiltinSayPassesThrough(rng, env, word);
    AsAllText();
    ExecuteInlinesOneLine(Registry(BuiltinCommands, map[]), rng, env,
                          Node("cmd", "execute", [Token("as"), Sel("a", Absent)], Some(say), None));
    ExecuteSpelling(word);
  }

  lemma ExecuteSpelling(word: string)
    ensures "execute " + "as @a" + " run " + ("say " + word) == "execute as @a run say " + word
  {
    assert "execute " + "as @a" + " run " + ("say " + word) == ("execute " + "as @a" + " run " + "say ") + word;
  }

  /** The arguments `as @a` are written back as they came. */
  lemma AsAllText()
    ensures ArgsText([Token("as"), Sel("a", Absent)]) == "as @a"
  {
    assert SelectorText("a", Absent) == "@a";
    var args := [Token("as"), Sel("a", Absent)];
    assert ArgText(args[1]) == "@a";
    assert ArgTexts(args) == ["as", "@a"];
    assert Join(["as", "@a"], " ") == "as" + " " + Join(["@a"], " ");
  }
}
