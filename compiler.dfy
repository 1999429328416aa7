/**
 * What `compileCmd` (src/index.js:189-222) and `compileCmds` (src/index.js:231-251) compute,
 * as functions of the registry, the namespace for generated functions, the counter `n`
 * and the function files. The methods of `Session.State` are proved to agree with them.
 */
module Compiler {

  import opened Outcomes
  import opened Strings
  import opened Values
  import opened Ids
  import opened Pack
  import opened Normalize

  /** What a custom command's callback returns: an array of lines, which is used as it is,
      any other value, whose `String` text is split into lines, or an error it throws. */
  datatype Reply = Lines(lines: seq<string>) | Text(text: string) | Raise(error: Error)

  /** A callback, called with the command's arguments. */
  type Callback = seq<Value> -> Reply

  /** The registered command names (`state.cmds`) and their callbacks (`state.callbacks`). */
  datatype Registry = Registry(cmds: set<string>, callbacks: map<string, Callback>)

  /** Every command that has a callback is registered. */
  predicate RegistryValid(reg: Registry)
  {
    reg.callbacks.Keys <= reg.cmds
  }

  /** `registerCmd(name, callback)` (src/index.js:164-171): the name becomes registered, with the
      callback when there is one and with no callback otherwise. */
  function Register(reg: Registry, name: string, callback: Option<Callback>): (r: Registry)
    ensures RegistryValid(reg) ==> RegistryValid(r)
    ensures name in r.cmds && (name in r.callbacks <==> callback.Some?)
    ensures callback.Some? ==> r.callbacks[name] == callback.value
    ensures r.cmds - {name} == reg.cmds - {name} && r.callbacks - {name} == reg.callbacks - {name}
  {
    Registry(reg.cmds + {name},
             if callback.Some? then reg.callbacks[name := callback.value] else reg.callbacks - {name})
  }

  /** `unregisterCmd(name)` (src/index.js:178-181): the name and its callback are removed. */
  function Unregister(reg: Registry, name: string): (r: Registry)
    ensures RegistryValid(reg) ==> RegistryValid(r)
    ensures name !in r.cmds && name !in r.callbacks
    ensures r.cmds - {name} == reg.cmds - {name} && r.callbacks - {name} == reg.callbacks - {name}
  {
    Registry(reg.cmds - {name}, reg.callbacks - {name})
  }

  /** Unregistering a name that was not registered before undoes registering it. */
  lemma UnregisterUndoesRegister(reg: Registry, name: string, callback: Option<Callback>)
    requires name !in reg.cmds && name !in reg.callbacks
    ensures Unregister(Register(reg, name, callback), name) == reg
  {
    var r := Unregister(Register(reg, name, callback), name);
    assert r.cmds == reg.cmds;
    assert r.callbacks.Keys == reg.callbacks.Keys;
    assert r.callbacks == reg.callbacks;
  }

  /** A command's position in the source text: `loc.start.line`. */
  datatype Loc = Loc(line: int)

  /** A node of the parsed program: its `type`, the command name, its arguments, the command
      an `execute` runs (`run`, which may be missing) and its location (which may be missing). */
  datatype Node = Node(kind: string, cmd: string, args: seq<Value>, run: Option<Node>, loc: Option<Loc>)

  /** The state compiling changes: the counter for generated function names and the
      function files. */
  datatype Env = Env(n: nat, files: map<string, string>)

  /** An argument as the compiler writes it: a quoted string between double quotes with
      nothing escaped, anything else as `String(v)`. */
  function ArgText(v: Value): (r: string)
    ensures v.Quoted? ==> |r| == |v.text| + 2 && r[0] == '"' && r[|r| - 1] == '"' && r[1..|r| - 1] == v.text
    ensures !v.Quoted? ==> r == Display(v)
  {
    if v.Quoted? then "\"" + v.text + "\"" else Display(v)
  }

  /** The texts of the arguments, one each. */
  function ArgTexts(args: seq<Value>): (r: seq<string>)
    ensures |r| == |args|
  {
    seq(|args|, i requires 0 <= i < |args| => ArgText(args[i]))
  }

  /** The arguments' texts come back from the command line by splitting on spaces, as long
      as none of them holds a space. */
  lemma ArgsReadBack(args: seq<Value>)
    requires |args| > 0 && forall i :: 0 <= i < |args| ==> ' ' !in ArgText(args[i])
    ensures Split(ArgsText(args), ' ') == ArgTexts(args)
  {
    SplitJoin(ArgTexts(args), ' ');
  }

  /** A quoted argument is put between double quotes as it is: unlike `stringify`, nothing in
      it is escaped, so a text holding a double quote comes out differently. */
  lemma QuotedArgumentIsNotEscaped(s: string)
    ensures ArgText(Quoted(s)) == "\"" + s + "\""
    ensures '"' in s ==> ArgText(Quoted(s)) != Stringify(Quoted(s), true)
  {
    EscapeLength(s);
  }

  /** Escaping never shortens a text, and lengthens any text holding a double quote. */
  lemma {:induction false} EscapeLength(s: string)
    ensures |Escape(s)| >= |s|
    ensures '"' in s ==> |Escape(s)| > |s|
  {
    if |s| > 0 {
      EscapeLength(s[1..]);
      assert s == [s[0]] + s[1..];
      assert |EscapeChar(s[0])| >= 1;
    }
  }

  /** The arguments joined with single spaces. */
  function ArgsText(args: seq<Value>): string
  {
    Join(ArgTexts(args), " ")
  }

  /** The id of the `n`th generated function: `rng:execN`. */
  function ExecName(rng: string, n: nat): string
  {
    rng + ":exec" + IntText(n)
  }

  /** Every line of a callback's text, trimmed. */
  function TrimLines(lines: seq<string>): (r: seq<string>)
    ensures |r| == |lines|
    ensures forall i :: 0 <= i < |r| ==> |r[i]| > 0 ==> !IsSpace(r[i][0]) && !IsSpace(r[i][|r[i]| - 1])
    ensures forall i :: 0 <= i < |r| ==>
              var a := LeadingSpaces(lines[i]);
              a + |r[i]| <= |lines[i]| && r[i] == lines[i][a..a + |r[i]|]
              && forall j :: a + |r[i]| <= j < |lines[i]| ==> IsSpace(lines[i][j])
  {
    seq(|lines|, i requires 0 <= i < |lines| => Trim(lines[i]))
  }

  const NotCommandAst := Error(TypeError, "given object is not a command ast")

  /** Reading `.type` of the missing `run` of an `execute`. */
  const MissingRun := Error(TypeError, "Cannot read properties of undefined (reading 'type')")

  function NotRegistered(cmd: string): Error
  {
    Error(PlainError, "command \"" + cmd + "\" is not registered")
  }

  /**
   * `compileCmd(node)`: the lines of MCFunction code, or the error thrown, and the state
   * afterwards. An `execute` is handled before the registry is consulted: its `run` is
   * compiled first, and when that yields several lines they are written to a new function
   * `rng:execN` (the counter goes up before the write) that the `execute` runs. A registered
   * command with a callback yields the callback's lines; one without is written back as it
   * came. Only an `execute` changes the state.
   */
  function CompileNode(reg: Registry, rng: string, env: Env, node: Node): (r: (Result<seq<string>>, Env))
    ensures env.n <= r.1.n && env.files.Keys <= r.1.files.Keys
    ensures node.kind != "cmd" || node.cmd != "execute" ==> r.1 == env
    ensures node.kind == "cmd" && node.cmd == "execute" && r.0.Ok? ==>
              |r.0.value| == 1 && var prefix := "execute " + ArgsText(node.args);
              |prefix| <= |r.0.value[0]| && r.0.value[0][..|prefix|] == prefix
    decreases node
  {
    if node.kind != "cmd" then (Err(NotCommandAst), env)
    else if node.cmd == "execute" then
      if node.run.None? then (Err(MissingRun), env)
      else
        var (body, env1) := CompileNode(reg, rng, env, node.run.value);
        var prefix := "execute " + ArgsText(node.args);
        if body.Err? then (body, env1)
        else if |body.value| > 1 then
          var name := ExecName(rng, env1.n);
          var (written, files) := WriteFunction(env1.files, name, Join(body.value, "\n"), false);
          var env2 := Env(env1.n + 1, files);
          if written.Err? then (Err(written.error), env2)
          else (Ok([prefix + " run function " + name]), env2)
        else if |body.value| == 1 then (Ok([prefix + " run " + body.value[0]]), env1)
        else (Ok([prefix]), env1)
    else if node.cmd in reg.cmds then
      if node.cmd in reg.callbacks then
        match reg.callbacks[node.cmd](node.args)
        case Lines(lines) => (Ok(lines), env)
        case Text(text) => (Ok(TrimLines(Split(text, '\n'))), env)
        case Raise(e) => (Err(e), env)
      else (Ok([node.cmd + " " + ArgsText(node.args)]), env)
    else (Err(NotRegistered(node.cmd)), env)
  }

  /** A command other than `execute` that is not registered is an error. */
  lemma UnregisteredIsError(reg: Registry, rng: string, env: Env, node: Node)
    requires node.kind == "cmd" && node.cmd != "execute" && node.cmd !in reg.cmds
    ensures CompileNode(reg, rng, env, node) == (Err(NotRegistered(node.cmd)), env)
  {
  }

  /** The registry entry for `execute` is never consulted: registering `execute`, with or
      without a callback, changes how nothing compiles. */
  lemma {:induction false} ExecuteBypassesRegistry(reg: Registry, rng: string, env: Env, node: Node, callback: Option<Callback>)
    ensures CompileNode(Register(reg, "execute", callback), rng, env, node) == CompileNode(reg, rng, env, node)
    decreases node
  {
    if node.kind == "cmd" && node.cmd == "execute" && node.run.Some? {
      ExecuteBypassesRegistry(reg, rng, env, node.run.value, callback);
    }
  }

  /** After `registerCmd(name, callback)`, a command named `name` compiles to the
      callback's lines, and a callback's error is the command's error. */
  lemma RegisteredCallbackRuns(reg: Registry, rng: string, env: Env, node: Node, callback: Callback)
    requires node.kind == "cmd" && node.cmd != "execute"
    ensures var r := CompileNode(Register(reg, node.cmd, Some(callback)), rng, env, node);
            r.1 == env
            && (callback(node.args).Lines? ==> r.0 == Ok(callback(node.args).lines))
            && (callback(node.args).Text? ==> r.0 == Ok(TrimLines(Split(callback(node.args).text, '\n'))))
            && (callback(node.args).Raise? ==> r.0 == Err(callback(node.args).error))
  {
  }

  /** After `registerCmd(name)` without a callback, a command named `name` is written back
      as its name, a space and its arguments — with a trailing space when it has none. */
  lemma RegisteredWithoutCallbackPassesThrough(reg: Registry, rng: string, env: Env, node: Node)
    requires node.kind == "cmd" && node.cmd != "execute"
    ensures CompileNode(Register(reg, node.cmd, None), rng, env, node)
            == (Ok([node.cmd + " " + ArgsText(node.args)]), env)
    ensures node.args == [] ==>
              CompileNode(Register(reg, node.cmd, None), rng, env, node) == (Ok([node.cmd + " "]), env)
  {
    if node.args == [] {
      assert |seq(|node.args|, i requires 0 <= i < |node.args| => ArgText(node.args[i]))| == 0;
      assert node.cmd + " " + "" == node.cmd + " ";
    }
  }

  /** A registered command without a callback writes a quoted argument between double quotes
      with nothing escaped, and a plain object as `[object Object]`, whatever its entries. */
  lemma PassThroughRendersArgument(reg: Registry, rng: string, env: Env, name: string, v: Value)
    requires name != "execute" && name in reg.cmds && name !in reg.callbacks
    ensures v.Token? ==>
              CompileNode(reg, rng, env, Node("cmd", name, [v], None, None)) == (Ok([name + " " + v.text]), env)
    ensures v.Quoted? ==>
              CompileNode(reg, rng, env, Node("cmd", name, [v], None, None)).0
              == Ok([name + " \"" + v.text + "\""])
    ensures v.Object? ==>
              CompileNode(reg, rng, env, Node("cmd", name, [v], None, None)).0
              == Ok([name + " [object Object]"])
  {
    var node := Node("cmd", name, [v], None, None);
    assert ArgTexts([v]) == [ArgText(v)];
    assert ArgsText([v]) == ArgText(v);
    assert CompileNode(reg, rng, env, node).0 == Ok([name + " " + ArgText(v)]);
    if v.Quoted? {
      assert name + " " + ("\"" + v.text + "\"") == name + " \"" + v.text + "\"";
    }
    if v.Object? {
      assert name + " " + "[object Object]" == name + " [object Object]";
    }
  }

  /** After `unregisterCmd(name)`, a command named `name` is an error again. */
  lemma UnregisteredCommandFails(reg: Registry, rng: string, env: Env, node: Node)
    requires node.kind == "cmd" && node.cmd != "execute"
    ensures CompileNode(Unregister(reg, node.cmd), rng, env, node) == (Err(NotRegistered(node.cmd)), env)
  {
  }

  /** A run of one line is inlined after `run`; nothing is written. */
  lemma ExecuteInlinesOneLine(reg: Registry, rng: string, env: Env, node: Node)
    requires node.kind == "cmd" && node.cmd == "execute" && node.run.Some?
    requires var (body, _) := CompileNode(reg, rng, env, node.run.value); body.Ok? && |body.value| == 1
    ensures var (body, env1) := CompileNode(reg, rng, env, node.run.value);
            CompileNode(reg, rng, env, node)
            == (Ok(["execute " + ArgsText(node.args) + " run " + body.value[0]]), env1)
  {
  }

  /** A name made only of lower-case letters and digits is a location. */
  lemma NameIsLocation(s: string)
    requires IsName(s)
    ensures IsLocation(s)
  {
    NameTailAvoids(s[1..], '/');
    NameTailAvoids(s[1..], '.');
    assert s == [s[0]] + s[1..];
    SplitNoSeparator(s, '/');
    SplitNoSeparator(s, '.');
  }

  /** `execN` is a name. */
  lemma ExecIsName(n: nat)
    ensures IsName("exec" + IntText(n))
  {
    var s := "exec" + IntText(n);
    assert s[1..] == "xec" + IntText(n);
    assert forall i :: 0 <= i < |IntText(n)| ==> IsDigit(IntText(n)[i]);
  }

  /** Where the `n`th generated function is written, when the namespace is a valid name. */
  lemma ExecPath(rng: string, n: nat)
    requires IsName(rng)
    ensures FunctionPath(ExecName(rng, n))
            == Ok("data/" + rng + "/functions/exec" + IntText(n) + ".mcfunction")
  {
    var loc := "exec" + IntText(n);
    ExecIsName(n);
    NameIsLocation(loc);
    ResolveNamespaced("functions", rng, loc, ".mcfunction", "data");
    assert '.' !in loc by { NameTailAvoids(loc[1..], '.'); assert loc == [loc[0]] + loc[1..]; }
    assert rng + ":" + loc == ExecName(rng, n);
    ExecPathText(rng, IntText(n));
  }

  lemma ExecPathText(rng: string, num: string)
    ensures "data" + "/" + rng + "/" + "functions" + "/" + ("exec" + num) + ".mcfunction"
         == "data/" + rng + "/functions/exec" + num + ".mcfunction"
  {
  }

  /** Different counter values give different generated files. */
  lemma ExecPathsDistinct(rng: string, n1: nat, n2: nat)
    requires IsName(rng)
    requires n1 != n2
    ensures FunctionPath(ExecName(rng, n1)) != FunctionPath(ExecName(rng, n2))
  {
    ExecPath(rng, n1);
    ExecPath(rng, n2);
    var a := "data/" + rng + "/functions/exec";
    var p1 := a + IntText(n1) + ".mcfunction";
    var p2 := a + IntText(n2) + ".mcfunction";
    if p1 == p2 {
      assert p1[|a|..|p1| - 11] == IntText(n1);
      assert p2[|a|..|p2| - 11] == IntText(n2);
      IntTextRoundTrip(n1);
      IntTextRoundTrip(n2);
      assert false;
    }
  }

  /**
   * An `execute` whose run yields several lines, with a valid namespace for generated
   * functions: the lines go, joined, after a line feed at the end of `rng:execN`'s file,
   * the counter goes up by one, and the `execute` runs that function.
   */
  lemma ExecuteHoistsSeveralLines(reg: Registry, rng: string, env: Env, node: Node)
    requires IsName(rng)
    requires node.kind == "cmd" && node.cmd == "execute" && node.run.Some?
    requires var (body, _) := CompileNode(reg, rng, env, node.run.value); body.Ok? && |body.value| > 1
    ensures var (body, env1) := CompileNode(reg, rng, env, node.run.value);
            var path := "data/" + rng + "/functions/exec" + IntText(env1.n) + ".mcfunction";
            var (r, env2) := CompileNode(reg, rng, env, node);
            r == Ok(["execute " + ArgsText(node.args) + " run function " + ExecName(rng, env1.n)])
            && env2.n == env1.n + 1
            && env2.files == env1.files[path := Current(env1.files, path) + "\n" + Join(body.value, "\n") + "\n"]
  {
    var (body, env1) := CompileNode(reg, rng, env, node.run.value);
    ExecPath(rng, env1.n);
  }

  /** A namespace that is not a name never gives a valid generated id. */
  lemma BadNamespaceExecName(rng: string, n: nat)
    requires !IsName(rng)
    ensures !ValidId(ExecName(rng, n))
  {
    var tail := "exec" + IntText(n);
    assert ExecName(rng, n) == rng + [':'] + tail;
    SplitConcat(rng, tail, ':');
    ExecIsName(n);
    NameTailAvoids(tail[1..], ':');
    assert tail == [tail[0]] + tail[1..];
    SplitNoSeparator(tail, ':');
    if ':' in rng {
      SplitHasSeparator(rng, ':');
    } else {
      SplitNoSeparator(rng, ':');
    }
  }

  /** With a namespace for generated functions that is not a name, hoisting fails with the
      error for an invalid id after the counter has gone up, and nothing is written. */
  lemma ExecuteHoistFailsOnBadNamespace(reg: Registry, rng: string, env: Env, node: Node)
    requires !IsName(rng)
    requires node.kind == "cmd" && node.cmd == "execute" && node.run.Some?
    requires var (body, _) := CompileNode(reg, rng, env, node.run.value); body.Ok? && |body.value| > 1
    ensures var (body, env1) := CompileNode(reg, rng, env, node.run.value);
            var (r, env2) := CompileNode(reg, rng, env, node);
            r == Err(Error(PlainError, "invalid namespaced id \"" + ExecName(rng, env1.n) + "\""))
            && env2 == Env(env1.n + 1, env1.files)
  {
    var (body, env1) := CompileNode(reg, rng, env, node.run.value);
    BadNamespaceExecName(rng, env1.n);
  }

  /** A node that is not a command is rejected with a TypeError before anything else. */
  lemma RejectsNonCommand(reg: Registry, rng: string, env: Env, node: Node)
    requires node.kind != "cmd"
    ensures CompileNode(reg, rng, env, node) == (Err(Error(TypeError, "given object is not a command ast")), env)
  {
  }

  /** An `execute` whose run yields no line is the prefix alone. */
  lemma ExecuteWithoutLines(reg: Registry, rng: string, env: Env, node: Node)
    requires node.kind == "cmd" && node.cmd == "execute" && node.run.Some?
    requires CompileNode(reg, rng, env, node.run.value).0 == Ok([])
    ensures CompileNode(reg, rng, env, node)
            == (Ok(["execute " + ArgsText(node.args)]), CompileNode(reg, rng, env, node.run.value).1)
  {
  }

  /** The error `compileCmds` throws for a failing node: prefixed with its line when it
      has a location, and otherwise the node's own error. */
  function Annotate(node: Node, e: Error): (r: Error)
    ensures node.loc.None? ==> r == e
    ensures node.loc.Some? ==>
              r.kind == PlainError && ReadAnnotation(r.message) == Some((node.loc.value.line, e.message))
  {
    if node.loc.Some? then
      AnnotationReadsBack(node.loc.value.line, e.message);
      Error(PlainError, "line " + IntText(node.loc.value.line) + "; " + e.message)
    else e
  }

  /** The length of the run of digits and minus signs at the front of `s`. */
  function NumberLength(s: string): (k: nat)
    ensures k <= |s|
  {
    if |s| > 0 && (IsDigit(s[0]) || s[0] == '-') then 1 + NumberLength(s[1..]) else 0
  }

  /** A message of the form `line N; rest` read as the line number and the rest. */
  function ReadAnnotation(msg: string): Option<(int, string)>
  {
    if |msg| < 5 || msg[..5] != "line " then None
    else
      var rest := msg[5..];
      var k := NumberLength(rest);
      if k + 2 > |rest| || rest[k..k + 2] != "; " then None
      else match ParseInt(rest[..k])
           case None => None
           case Some(line) => Some((line, rest[k + 2..]))
  }

  /** The number at the front stops where the first character that is no digit or sign is. */
  lemma {:induction false} NumberLengthPrefix(p: string, t: string)
    requires forall i :: 0 <= i < |p| ==> IsDigit(p[i]) || p[i] == '-'
    requires |t| > 0 && !IsDigit(t[0]) && t[0] != '-'
    ensures NumberLength(p + t) == |p|
    decreases |p|
  {
    if |p| == 0 {
      assert p + t == t;
    } else {
      assert (p + t)[0] == p[0] && (p + t)[1..] == p[1..] + t;
      NumberLengthPrefix(p[1..], t);
    }
  }

  /** The line number and the message come back out of the annotated message. */
  lemma AnnotationReadsBack(line: int, msg: string)
    ensures ReadAnnotation("line " + IntText(line) + "; " + msg) == Some((line, msg))
  {
    var d := IntText(line);
    var full := "line " + d + "; " + msg;
    var rest := full[5..];
    assert full[..5] == "line ";
    assert rest == d + ("; " + msg);
    NumberLengthPrefix(d, "; " + msg);
    assert rest[|d|..|d| + 2] == "; ";
    assert rest[..|d|] == d;
    assert rest[|d| + 2..] == msg;
    IntTextRoundTrip(line);
  }

  /** Compiling one node from a state: its lines or error, and the state afterwards. */
  type Step = (Env, Node) -> (Result<seq<string>>, Env)

  /** The loop of `compileCmds` over `nodes` with a given way of compiling one node: the
      concatenated lines, or the annotated error of the first node that fails, and the state
      after the nodes compiled up to and including it. */
  function RunSeq(step: Step, env: Env, nodes: seq<Node>): (Result<seq<string>>, Env)
  {
    if |nodes| == 0 then (Ok([]), env)
    else
      var (done, env1) := RunSeq(step, env, nodes[..|nodes| - 1]);
      if done.Err? then (done, env1)
      else
        var last := nodes[|nodes| - 1];
        var (more, env2) := step(env1, last);
        if more.Err? then (Err(Annotate(last, more.error)), env2)
        else (Ok(done.value + more.value), env2)
  }

  /** `compileCmd` as a step. */
  function NodeStep(reg: Registry, rng: string): Step
  {
    (e: Env, node: Node) => CompileNode(reg, rng, e, node)
  }

  /** The loop of `compileCmds` over `nodes`. */
  function CompileSeq(reg: Registry, rng: string, env: Env, nodes: seq<Node>): (Result<seq<string>>, Env)
  {
    RunSeq(NodeStep(reg, rng), env, nodes)
  }

  /** Running `b` after a result `done`: stop at an error, and otherwise run `b` from the
      state `done` ended in and concatenate the lines. */
  function Then(step: Step, done: (Result<seq<string>>, Env), b: seq<Node>): (Result<seq<string>>, Env)
  {
    if done.0.Err? then done
    else
      var (rb, eb) := RunSeq(step, done.1, b);
      if rb.Err? then (rb, eb) else (Ok(done.0.value + rb.value), eb)
  }

  /** Running `a + b` runs `a`, then — unless that failed — `b` from where `a` left off, and
      concatenates the lines. */
  lemma {:induction false} RunSeqAppend(step: Step, env: Env, a: seq<Node>, b: seq<Node>)
    ensures RunSeq(step, env, a + b) == Then(step, RunSeq(step, env, a), b)
    decreases |b|
  {
    var ra := RunSeq(step, env, a);
    if |b| == 0 {
      assert a + b == a;
      if ra.0.Ok? {
        assert ra.0.value + [] == ra.0.value;
      }
    } else {
      var init, last := b[..|b| - 1], b[|b| - 1];
      RunSeqAppend(step, env, a, init);
      assert (a + b)[..|a + b| - 1] == a + init;
      assert (a + b)[|a + b| - 1] == last;
      if ra.0.Ok? {
        var ri := RunSeq(step, ra.1, init);
        if ri.0.Ok? {
          var rl := step(ri.1, last);
          if rl.0.Ok? {
            assert ra.0.value + ri.0.value + rl.0.value == ra.0.value + (ri.0.value + rl.0.value);
          }
        }
      }
    }
  }

  /** Compiling `a + b` compiles `a`, then — unless that failed — `b` from where `a` left off. */
  lemma CompileSeqAppend(reg: Registry, rng: string, env: Env, a: seq<Node>, b: seq<Node>)
    ensures CompileSeq(reg, rng, env, a + b) == Then(NodeStep(reg, rng), CompileSeq(reg, rng, env, a), b)
  {
    RunSeqAppend(NodeStep(reg, rng), env, a, b);
  }

  /** A failing node stops the loop: nothing after it is compiled. */
  lemma StopsAtFirstError(reg: Registry, rng: string, env: Env, a: seq<Node>, b: seq<Node>)
    requires CompileSeq(reg, rng, env, a).0.Err?
    ensures CompileSeq(reg, rng, env, a + b) == CompileSeq(reg, rng, env, a)
  {
    CompileSeqAppend(reg, rng, env, a, b);
  }

  /** A node after others that compiled: its lines are appended, or its error, annotated
      with its line when it has one, ends the loop. */
  lemma CompileSeqSnoc(reg: Registry, rng: string, env: Env, a: seq<Node>, node: Node)
    requires CompileSeq(reg, rng, env, a).0.Ok?
    ensures var (done, env1) := CompileSeq(reg, rng, env, a);
            var (more, env2) := CompileNode(reg, rng, env1, node);
            CompileSeq(reg, rng, env, a + [node])
            == if more.Ok? then (Ok(done.value + more.value), env2) else (Err(Annotate(node, more.error)), env2)
  {
    assert (a + [node])[..|a|] == a;
  }

  /** Commands other than `execute` leave the counter and the files alone. */
  lemma {:induction false} CommandsKeepState(reg: Registry, rng: string, env: Env, nodes: seq<Node>)
    requires forall i :: 0 <= i < |nodes| ==> nodes[i].cmd != "execute"
    ensures CompileSeq(reg, rng, env, nodes).1 == env
  {
    if |nodes| > 0 {
      CommandsKeepState(reg, rng, env, nodes[..|nodes| - 1]);
    }
  }

  /** The length of the run of line feeds at the front of `s`. */
  function LineFeeds(s: string): (k: nat)
    ensures k <= |s| && forall i :: 0 <= i < k ==> s[i] == '\n'
    ensures k < |s| ==> s[k] != '\n'
  {
    if |s| > 0 && s[0] == '\n' then 1 + LineFeeds(s[1..]) else 0
  }

  /** `.replace(/\n{2,}/, "\n")`: the first run of two or more line feeds becomes one; the
      pattern has no `g` flag, so later runs stay. */
  function CollapseFirstBlankRun(s: string): (r: string)
    ensures |r| <= |s|
    decreases |s|
  {
    if |s| < 2 then s
    else if s[0] == '\n' && s[1] == '\n' then "\n" + s[LineFeeds(s)..]
    else [s[0]] + CollapseFirstBlankRun(s[1..])
  }

  /** `k` line feeds. */
  function Feeds(k: nat): (r: string)
    ensures |r| == k && forall i :: 0 <= i < k ==> r[i] == '\n'
  {
    seq(k, _ => '\n')
  }

  /** No two line feeds in a row. */
  predicate NoBlankRun(p: string)
  {
    forall i :: 0 <= i < |p| - 1 ==> !(p[i] == '\n' && p[i + 1] == '\n')
  }

  lemma {:induction false} LineFeedsOfRun(k: nat, t: string)
    requires |t| > 0 ==> t[0] != '\n'
    ensures LineFeeds(Feeds(k) + t) == k
  {
    if k > 0 {
      assert (Feeds(k) + t)[1..] == Feeds(k - 1) + t;
      LineFeedsOfRun(k - 1, t);
    } else {
      assert Feeds(k) + t == t;
    }
  }

  /**
   * The first run of two or more line feeds becomes one, and what follows it is kept as it
   * is, later runs included: the text before the run holds no run and does not end in a
   * line feed, and the text after it does not start with one.
   */
  lemma {:induction false} CollapsesFirstRun(p: string, k: nat, t: string)
    requires k >= 2 && NoBlankRun(p)
    requires |p| > 0 ==> p[|p| - 1] != '\n'
    requires |t| > 0 ==> t[0] != '\n'
    ensures CollapseFirstBlankRun(p + Feeds(k) + t) == p + "\n" + t
    decreases |p|
  {
    var s := p + Feeds(k) + t;
    if |p| == 0 {
      assert s == Feeds(k) + t;
      LineFeedsOfRun(k, t);
      assert s[k..] == t;
      assert p + "\n" + t == "\n" + t;
    } else {
      var p' := p[1..];
      assert s[0] == p[0];
      if |p| >= 2 {
        assert s[1] == p[1];
      }
      assert s[1..] == p' + Feeds(k) + t;
      assert NoBlankRun(p') by {
        forall i | 0 <= i < |p'| - 1 ensures !(p'[i] == '\n' && p'[i + 1] == '\n') {
          assert p'[i] == p[i + 1] && p'[i + 1] == p[i + 2];
        }
      }
      assert |p'| > 0 ==> p'[|p'| - 1] == p[|p| - 1];
      CollapsesFirstRun(p', k, t);
      assert [p[0]] + (p' + "\n" + t) == p + "\n" + t;
    }
  }

  /** A prefix without line feeds is copied. */
  lemma {:induction false} CollapsePrefix(p: string, t: string)
    requires '\n' !in p
    ensures CollapseFirstBlankRun(p + t) == p + CollapseFirstBlankRun(t)
    decreases |p|
  {
    if |p| == 0 {
      assert p + t == t;
    } else if |p + t| < 2 {
      assert t == "" && p + t == p;
    } else {
      assert (p + t)[0] == p[0] && (p + t)[1..] == p[1..] + t;
      assert '\n' !in p[1..] by { assert p == [p[0]] + p[1..]; }
      CollapsePrefix(p[1..], t);
      assert [p[0]] + (p[1..] + CollapseFirstBlankRun(t)) == p + CollapseFirstBlankRun(t);
    }
  }

  /** Lines that are not empty and hold no line feed join into text with no blank line. */
  lemma {:induction false} CollapseKeepsFullLines(lines: seq<string>)
    requires forall i :: 0 <= i < |lines| ==> |lines[i]| > 0 && '\n' !in lines[i]
    ensures CollapseFirstBlankRun(Join(lines, "\n")) == Join(lines, "\n")
  {
    if |lines| == 1 {
      CollapsePrefix(lines[0], "");
      assert lines[0] + "" == lines[0];
    } else if |lines| > 1 {
      var rest := Join(lines[1..], "\n");
      CollapseKeepsFullLines(lines[1..]);
      assert lines[0] + "\n" + rest == lines[0] + ("\n" + rest);
      CollapsePrefix(lines[0], "\n" + rest);
      assert rest[0] == lines[1][0];
      assert ("\n" + rest)[1..] == rest;
      assert CollapseFirstBlankRun("\n" + rest) == "\n" + CollapseFirstBlankRun(rest);
    }
  }

  /** The end of `compileCmds`: join, collapse the first blank run, trim, split into lines.
      The lines hold no line feed and join back into the trimmed text. */
  function Finish(code: seq<string>): (r: seq<string>)
    ensures |r| >= 1 && forall i :: 0 <= i < |r| ==> '\n' !in r[i]
    ensures Join(r, "\n") == Trim(CollapseFirstBlankRun(Join(code, "\n")))
  {
    var text := Trim(CollapseFirstBlankRun(Join(code, "\n")));
    JoinSplit(text, '\n');
    Split(text, '\n')
  }

  /** Code whose lines are not empty, hold no line feed and do not start or end the text with
      white space comes out of `Finish` unchanged. */
  lemma FinishKeepsCleanCode(code: seq<string>)
    requires |code| >= 1
    requires forall i :: 0 <= i < |code| ==> |code[i]| > 0 && '\n' !in code[i]
    requires !IsSpace(code[0][0]) && !IsSpace(code[|code| - 1][|code[|code| - 1]| - 1])
    ensures Finish(code) == code
  {
    var text := Join(code, "\n");
    CollapseKeepsFullLines(code);
    JoinEnds(code, "\n");
    TrimUnchanged(text);
    SplitJoin(code, '\n');
  }

  /** The joined text starts with the first part and ends with the last. */
  lemma {:induction false} JoinEnds(parts: seq<string>, sep: string)
    requires |parts| >= 1 && forall i :: 0 <= i < |parts| ==> |parts[i]| > 0
    ensures var t := Join(parts, sep);
            |t| > 0 && t[0] == parts[0][0] && t[|t| - 1] == parts[|parts| - 1][|parts[|parts| - 1]| - 1]
  {
    if |parts| > 1 {
      var rest := parts[1..];
      assert rest[|rest| - 1] == parts[|parts| - 1];
      if |rest| > 1 { JoinEnds(rest, sep); } else { assert Join(rest, sep) == rest[0]; }
    }
  }

  /** Only the first run of blank lines is collapsed: the second stays. */
  lemma OnlyFirstBlankRunCollapses()
    ensures Finish(["a", "", "", "b", "", "c"]) == ["a", "b", "", "c"]
  {
    var collapsed := "a\nb\n\nc";
    JoinSixLines();
    CollapseSixLines();
    TrimUnchanged(collapsed);
    SplitSixLines();
  }

  lemma JoinSixLines()
    ensures Join(["a", "", "", "b", "", "c"], "\n") == "a\n\n\nb\n\nc"
  {
    var ls := ["a", "", "", "b", "", "c"];
    assert Join(ls[5..], "\n") == "c";
    assert Join(ls[4..], "\n") == "\nc";
    assert Join(ls[3..], "\n") == "b\n\nc";
    assert Join(ls[2..], "\n") == "\nb\n\nc";
    assert Join(ls[1..], "\n") == "\n\nb\n\nc";
  }

  lemma CollapseSixLines()
    ensures CollapseFirstBlankRun("a\n\n\nb\n\nc") == "a\nb\n\nc"
  {
    var t := "\n\n\nb\n\nc";
    assert "a\n\n\nb\n\nc"[1..] == t;
    assert LineFeeds(t) == 3 by {
      assert t[1..] == "\n\nb\n\nc";
      assert t[1..][1..] == "\nb\n\nc";
      assert t[1..][1..][1..] == "b\n\nc";
    }
    assert t[3..] == "b\n\nc";
  }

  lemma SplitSixLines()
    ensures Split("a\nb\n\nc", '\n') == ["a", "b", "", "c"]
  {
    SplitAtSeparator("a", "b\n\nc", '\n');
    SplitAtSeparator("b", "\nc", '\n');
    SplitAtSeparator("", "c", '\n');
    SplitNoSeparator("c", '\n');
    assert "a" + ['\n'] + "b\n\nc" == "a\nb\n\nc";
    assert "b" + ['\n'] + "\nc" == "b\n\nc";
    assert "" + ['\n'] + "c" == "\nc";
  }

  /** What `compileCmds` is given: CommandScript text, or an already parsed program. */
  datatype Data = Source(text: string) | Program(nodes: seq<Node>)

  /** The parser: the program's nodes, or the syntax error it throws. */
  type Parser = string -> Result<seq<Node>>

  /** The nodes `compileCmds` compiles: text is cleaned up (`parseCmds`) and parsed. */
  function ParseData(parse: Parser, data: Data): Result<seq<Node>>
  {
    if data.Source? then parse(Prepare(data.text)) else Ok(data.nodes)
  }

  /** `compileCmds(data)`: the finished lines, or the error, and the state afterwards. A parse
      error changes nothing; a compile error keeps the changes made before it. */
  function CompileAll(reg: Registry, rng: string, env: Env, parse: Parser, data: Data): (r: (Result<seq<string>>, Env))
    ensures data.Program? && data.nodes == [] ==> r == (Ok([""]), env)
    ensures ParseData(parse, data).Err? ==> r == (Err(ParseData(parse, data).error), env)
  {
    match ParseData(parse, data)
    case Err(e) => (Err(e), env)
    case Ok(nodes) =>
      var (code, env1) := CompileSeq(reg, rng, env, nodes);
      if code.Err? then (Err(code.error), env1) else (Ok(Finish(code.value)), env1)
  }
}
