/** The shell-like command runner: a token state machine that builds a flat list of commands and
    operators, and an interpreter that runs that list. */
module ShellPipeline {

  import opened Wrappers

  datatype Stdout = NoOut | PipeOut | OutFile(name: string)

  datatype Stderr = NoErr | ErrToOut | ErrFile(name: string)

  datatype Command = Command(
    argv: seq<string>, stdin: Option<string>, stdout: Stdout, stderr: Stderr, env: map<string, string>)

  datatype Node = Cmd(cmd: Command) | Chdir(dir: Option<string>) | Pipe | And | Or {
    predicate IsOperator() { Pipe? || And? || Or? }
  }

  // ---------------------------------------------------------------- variable assignments

  predicate IsWordChar(c: char) { 'a' <= c <= 'z' || 'A' <= c <= 'Z' || '0' <= c <= '9' || c == '_' }

  predicate IsSpace(c: char) { c in " \t\n\r" || c == '\U{000B}' || c == '\U{000C}' }

  lemma SpaceIs(c: char)
    ensures IsSpace(c) <==>
      c == ' ' || c == '\t' || c == '\n' || c == '\r' || c == '\U{000B}' || c == '\U{000C}'
  {
  }

  function NameLength(s: string): (n: nat)
    ensures n <= |s|
    ensures forall i :: 0 <= i < n ==> IsWordChar(s[i])
    ensures n < |s| ==> !IsWordChar(s[n])
  {
    if s == [] || !IsWordChar(s[0]) then 0 else 1 + NameLength(s[1..])
  }

  /** Splits NAME=value: word characters, "=", then at least one character and no white space;
      one newline may follow. */
  function MatchAssignment(token: string): Option<(string, string)> {
    MatchWhole(if token != [] && token[|token| - 1] == '\n' then token[..|token| - 1] else token)
  }

  function MatchWhole(body: string): Option<(string, string)> {
    var n := NameLength(body);
    if n > 0 && n + 1 < |body| && body[n] == '=' && (forall i :: n < i < |body| ==> !IsSpace(body[i]))
    then Some((body[..n], body[n + 1..]))
    else None
  }

  lemma Assoc<T>(a: seq<T>, b: seq<T>, c: seq<T>)
    ensures (a + b) + c == a + (b + c)
  {
  }

  // ---------------------------------------------------------------- the token state machine

  datatype Mode = BEGIN | COMMAND | CHDIR | STDERR | STDOUT | STDIN

  datatype ParserState = ParserState(mode: Mode, current: Option<Node>, pipeline: seq<Node>, env: map<string, string>) {
    /** Commits the current command and appends an operator. */
    function Commit(op: Node): Result<ParserState> {
      if current.None? then Err
      else Ok(ParserState(BEGIN, None, pipeline + [current.value, op], env))
    }
  }

  const START := ParserState(BEGIN, None, [], map[])

  /** One token. */
  function Feed(p: ParserState, token: string): Result<ParserState> {
    match p.mode
    case BEGIN =>
      var assignment := MatchAssignment(token);
      if assignment.Some? then Ok(p.(env := p.env[assignment.value.0 := assignment.value.1]))
      else if p.current.Some? then Err
      else if token == "cd" then
        if p.env != map[] then Err else Ok(p.(mode := CHDIR, current := Some(Chdir(None))))
      else Ok(p.(mode := COMMAND, current := Some(Cmd(Command([token], None, NoOut, NoErr, p.env))), env := map[]))
    case CHDIR =>
      if p.current.None? || !p.current.value.Chdir? then Err
      else if token == "&&" then p.Commit(And)
      else if p.current.value.dir.Some? then Err
      else Ok(p.(current := Some(Chdir(Some(token)))))
    case _ =>
      if p.current.None? || !p.current.value.Cmd? then Err
      else FeedCommand(p, p.current.value.cmd, token)
  }

  function FeedCommand(p: ParserState, cmd: Command, token: string): Result<ParserState> {
    match p.mode
    case STDOUT =>
      if cmd.stdout.NoOut? then Ok(p.(mode := COMMAND, current := Some(Cmd(cmd.(stdout := OutFile(token)))))) else Err
    case STDERR =>
      if cmd.stderr.NoErr? then Ok(p.(mode := COMMAND, current := Some(Cmd(cmd.(stderr := ErrFile(token)))))) else Err
    case STDIN =>
      if cmd.stdin.None? then Ok(p.(mode := COMMAND, current := Some(Cmd(cmd.(stdin := Some(token)))))) else Err
    case _ =>
      if token == ">" then Ok(p.(mode := STDOUT))
      else if token == "2>" then Ok(p.(mode := STDERR))
      else if token == "2>&1" then
        if cmd.stderr.NoErr? then Ok(p.(current := Some(Cmd(cmd.(stderr := ErrToOut))))) else Err
      else if token == "<" then Ok(p.(mode := STDIN))
      else if token == "|" then
        if cmd.stdout.NoOut? then p.(current := Some(Cmd(cmd.(stdout := PipeOut)))).Commit(Pipe) else Err
      else if token == "&&" then p.Commit(And)
      else if token == "||" then p.Commit(Or)
      else Ok(p.(current := Some(Cmd(cmd.(argv := cmd.argv + [token])))))
  }

  function FeedAll(p: ParserState, tokens: seq<string>): Result<ParserState>
    decreases |tokens|
  {
    if tokens == [] then Ok(p)
    else
      var q := Feed(p, tokens[0]);
      if q.Err? then Err else FeedAll(q.value, tokens[1..])
  }

  function Parsed(tokens: seq<string>): Result<seq<Node>> {
    var p := FeedAll(START, tokens);
    if p.Err? || p.value.current.None? then Err else Ok(p.value.pipeline + [p.value.current.value])
  }

  lemma {:induction false} FeedAllConcat(p: ParserState, a: seq<string>, b: seq<string>)
    ensures FeedAll(p, a + b) == (var q := FeedAll(p, a); if q.Err? then Err else FeedAll(q.value, b))
    decreases |a|
  {
    if a == [] {
      assert a + b == b;
    } else {
      assert (a + b)[1..] == a[1..] + b;
      var q := Feed(p, a[0]);
      if q.Ok? { FeedAllConcat(q.value, a[1..], b); }
    }
  }

  // ---------------------------------------------------------------- what parse produces

  /** Node `i` and the operator behind it fit together. */
  predicate FitsNext(node: Node, op: Node) {
    match node
    case Cmd(c) => op.IsOperator() && (c.stdout.PipeOut? <==> op.Pipe?)
    case Chdir(_) => op.And?
    case _ => false
  }

  predicate FitsLast(node: Node) {
    match node
    case Cmd(c) => !c.stdout.PipeOut?
    case Chdir(_) => true
    case _ => false
  }

  predicate HasProgram(node: Node) { node.Cmd? ==> node.cmd.argv != [] }

  /** Commands and operators alternate, and a command writes to a pipe iff a pipe follows it. */
  predicate WellFormed(nodes: seq<Node>)
    decreases |nodes|
  {
    nodes != [] && HasProgram(nodes[0]) &&
    if |nodes| == 1 then FitsLast(nodes[0])
    else FitsNext(nodes[0], nodes[1]) && WellFormed(nodes[2..])
  }

  /** A committed prefix of a well-formed list. */
  predicate WellFormedPrefix(nodes: seq<Node>)
    decreases |nodes|
  {
    nodes == [] ||
    (|nodes| >= 2 && HasProgram(nodes[0]) && FitsNext(nodes[0], nodes[1]) && WellFormedPrefix(nodes[2..]))
  }

  predicate GoodState(p: ParserState) {
    && WellFormedPrefix(p.pipeline)
    && match p.mode
       case BEGIN => p.current.None?
       case CHDIR => p.current.Some? && p.current.value.Chdir?
       case _ =>
         p.current.Some? && p.current.value.Cmd? && HasProgram(p.current.value) && !p.current.value.cmd.stdout.PipeOut?
  }

  lemma {:induction false} PrefixAppend(nodes: seq<Node>, node: Node, op: Node)
    requires WellFormedPrefix(nodes) && HasProgram(node) && FitsNext(node, op)
    ensures WellFormedPrefix(nodes + [node, op])
    decreases |nodes|
  {
    if nodes == [] {
      assert nodes + [node, op] == [node, op] && [node, op][2..] == [];
    } else {
      PrefixAppend(nodes[2..], node, op);
      assert (nodes + [node, op])[2..] == nodes[2..] + [node, op];
    }
  }

  lemma {:induction false} PrefixFinish(nodes: seq<Node>, node: Node)
    requires WellFormedPrefix(nodes) && HasProgram(node) && FitsLast(node)
    ensures WellFormed(nodes + [node])
    decreases |nodes|
  {
    if nodes == [] {
      assert nodes + [node] == [node];
    } else {
      PrefixFinish(nodes[2..], node);
      assert (nodes + [node])[2..] == nodes[2..] + [node];
    }
  }

  lemma FeedKeepsGood(p: ParserState, token: string)
    requires GoodState(p) && Feed(p, token).Ok?
    ensures GoodState(Feed(p, token).value)
  {
    hide MatchAssignment, WellFormedPrefix;
    match p.mode
    case BEGIN =>
    case CHDIR =>
      if token == "&&" { PrefixAppend(p.pipeline, p.current.value, And); }
    case COMMAND =>
      var cmd := p.current.value.cmd;
      if token == "|" {
        if cmd.stdout.NoOut? { PrefixAppend(p.pipeline, Cmd(cmd.(stdout := PipeOut)), Pipe); }
      } else if token == "&&" {
        PrefixAppend(p.pipeline, p.current.value, And);
      } else if token == "||" {
        PrefixAppend(p.pipeline, p.current.value, Or);
      }
    case _ =>
  }

  lemma {:induction false} FeedAllKeepsGood(p: ParserState, tokens: seq<string>)
    requires GoodState(p) && FeedAll(p, tokens).Ok?
    ensures GoodState(FeedAll(p, tokens).value)
    decreases |tokens|
  {
    if tokens != [] {
      FeedKeepsGood(p, tokens[0]);
      FeedAllKeepsGood(Feed(p, tokens[0]).value, tokens[1..]);
    }
  }

  /** Whatever parse accepts is well formed. */
  lemma ParsedWellFormed(tokens: seq<string>)
    requires Parsed(tokens).Ok?
    ensures WellFormed(Parsed(tokens).value)
  {
    FeedAllKeepsGood(START, tokens);
    var p := FeedAll(START, tokens).value;
    PrefixFinish(p.pipeline, p.current.value);
  }

  /** The parse loop: tokens are taken from the front one by one. */
  method Parse(tokens: seq<string>) returns (r: Result<seq<Node>>)
    ensures r == Parsed(tokens)
    ensures r.Ok? ==> WellFormed(r.value)
  {
    var rest, p := tokens, START;
    while rest != []
      invariant FeedAll(p, rest) == FeedAll(START, tokens)
      decreases |rest|
    {
      var token := rest[0];
      rest := rest[1..];
      var q := Feed(p, token);
      if q.Err? {
        return Err;
      }
      p := q.value;
    }
    if p.current.None? {
      return Err;
    }
    r := Ok(p.pipeline + [p.current.value]);
    ParsedWellFormed(tokens);
  }

  // ---------------------------------------------------------------- command lines as trees

  /** What may stand behind a program, in any order. */
  datatype Word =
    | Argument(text: string)
    | ReadFrom(file: string)
    | WriteTo(file: string)
    | ErrorsTo(file: string)
    | ErrorsToOutput

  /** Two redirections of the same stream. */
  predicate SameStream(a: Word, b: Word) {
    || (a.ReadFrom? && b.ReadFrom?)
    || (a.WriteTo? && b.WriteTo?)
    || ((a.ErrorsTo? || a.ErrorsToOutput?) && (b.ErrorsTo? || b.ErrorsToOutput?))
  }

  predicate OncePerStream(words: seq<Word>) { forall i, j :: 0 <= i < j < |words| ==> !SameStream(words[i], words[j]) }

  function Arguments(words: seq<Word>): seq<string> {
    if words == [] then []
    else Arguments(words[..|words| - 1]) + if words[|words| - 1].Argument? then [words[|words| - 1].text] else []
  }

  function Input(words: seq<Word>): (r: Option<string>)
    ensures r.None? ==> forall w :: w in words ==> !w.ReadFrom?
    ensures r.Some? ==> ReadFrom(r.value) in words
  {
    if words == [] then None
    else if words[|words| - 1].ReadFrom? then Some(words[|words| - 1].file)
    else Input(words[..|words| - 1])
  }

  function Output(words: seq<Word>): (r: Option<string>)
    ensures r.None? ==> forall w :: w in words ==> !w.WriteTo?
    ensures r.Some? ==> WriteTo(r.value) in words
  {
    if words == [] then None
    else if words[|words| - 1].WriteTo? then Some(words[|words| - 1].file)
    else Output(words[..|words| - 1])
  }

  function Errors(words: seq<Word>): (r: Stderr)
    ensures r.NoErr? ==> forall w :: w in words ==> !w.ErrorsTo? && !w.ErrorsToOutput?
    ensures r.ErrFile? ==> ErrorsTo(r.name) in words
    ensures r.ErrToOut? ==> ErrorsToOutput in words
  {
    if words == [] then NoErr
    else
      match words[|words| - 1]
      case ErrorsTo(file) => ErrFile(file)
      case ErrorsToOutput => ErrToOut
      case _ => Errors(words[..|words| - 1])
  }

  /** One command of a pipe, with the directory changes and assignments in front of it. */
  datatype Stage = Stage(dirs: seq<string>, env: seq<(string, string)>, program: string, words: seq<Word>)

  /** A pipe and what follows it; `&&` and `||` both group to the right. */
  datatype Line = Line(stages: seq<Stage>, rest: Rest)
  datatype Rest = End | AndThen(next: Line) | OrElse(next: Line)

  predicate GoodLine(line: Line) {
    && line.stages != []
    && (forall k :: 0 <= k < |line.stages| ==> OncePerStream(line.stages[k].words))
    && (forall k :: 0 <= k < |line.stages| - 1 ==> Output(line.stages[k].words).None?)
    && match line.rest
       case End => true
       case AndThen(next) => GoodLine(next)
       case OrElse(next) => GoodLine(next)
  }

  function EnvMap(env: seq<(string, string)>): map<string, string> {
    if env == [] then map[] else EnvMap(env[..|env| - 1])[env[|env| - 1].0 := env[|env| - 1].1]
  }

  function StageCommand(stage: Stage, last: bool): Command {
    var output := Output(stage.words);
    Command([stage.program] + Arguments(stage.words), Input(stage.words),
            if !last then PipeOut else if output.Some? then OutFile(output.value) else NoOut,
            Errors(stage.words), EnvMap(stage.env))
  }

  function ChdirNodes(dirs: seq<string>): seq<Node> {
    if dirs == [] then [] else [Chdir(Some(dirs[0])), And] + ChdirNodes(dirs[1..])
  }

  function StageNodes(stages: seq<Stage>): seq<Node> {
    if stages == [] then []
    else
      ChdirNodes(stages[0].dirs) + [Cmd(StageCommand(stages[0], |stages| == 1))] +
      (if |stages| == 1 then [] else [Pipe] + StageNodes(stages[1..]))
  }

  /** The flat node list that stands for the tree. */
  function LineNodes(line: Line): seq<Node> {
    StageNodes(line.stages) +
    match line.rest
    case End => []
    case AndThen(next) => [And] + LineNodes(next)
    case OrElse(next) => [Or] + LineNodes(next)
  }

  // ---------------------------------------------------------------- spelling a tree

  function EnvTokens(env: seq<(string, string)>): seq<string> {
    if env == [] then [] else EnvTokens(env[..|env| - 1]) + [env[|env| - 1].0 + "=" + env[|env| - 1].1]
  }

  function DirTokens(dirs: seq<string>): seq<string> {
    if dirs == [] then [] else ["cd", dirs[0], "&&"] + DirTokens(dirs[1..])
  }

  function WordTokens(word: Word): seq<string> {
    match word
    case Argument(text) => [text]
    case ReadFrom(file) => ["<", file]
    case WriteTo(file) => [">", file]
    case ErrorsTo(file) => ["2>", file]
    case ErrorsToOutput => ["2>&1"]
  }

  function WordsTokens(words: seq<Word>): seq<string> {
    if words == [] then [] else WordsTokens(words[..|words| - 1]) + WordTokens(words[|words| - 1])
  }

  function StageTokens(stage: Stage): seq<string> {
    DirTokens(stage.dirs) + EnvTokens(stage.env) + [stage.program] + WordsTokens(stage.words)
  }

  function StagesTokens(stages: seq<Stage>): seq<string> {
    if stages == [] then []
    else StageTokens(stages[0]) + (if |stages| == 1 then [] else ["|"] + StagesTokens(stages[1..]))
  }

  function LineTokens(line: Line): seq<string> {
    StagesTokens(line.stages) +
    match line.rest
    case End => []
    case AndThen(next) => ["&&"] + LineTokens(next)
    case OrElse(next) => ["||"] + LineTokens(next)
  }

  predicate PlainArgument(word: string) { word !in [">", "2>", "2>&1", "<", "|", "&&", "||"] }

  predicate PlainArguments(words: seq<Word>) {
    forall w :: w in words && w.Argument? ==> PlainArgument(w.text)
  }

  /** The words of the stage are not taken for something else where they stand. */
  predicate Spellable(stage: Stage) {
    && stage.program != "cd" && MatchAssignment(stage.program).None?
    && PlainArguments(stage.words)
    && (forall k :: 0 <= k < |stage.dirs| ==> stage.dirs[k] != "&&")
    && (forall k :: 0 <= k < |stage.env| ==>
          MatchAssignment(stage.env[k].0 + "=" + stage.env[k].1) == Some(stage.env[k]))
  }

  predicate SpellableLine(line: Line) {
    && (forall k :: 0 <= k < |line.stages| ==> Spellable(line.stages[k]))
    && match line.rest
       case End => true
       case AndThen(next) => SpellableLine(next)
       case OrElse(next) => SpellableLine(next)
  }

  /** A name of word characters and a value without white space are recognised as an assignment. */
  lemma AssignmentRecognised(name: string, value: string)
    requires name != [] && value != []
    requires (forall i :: 0 <= i < |name| ==> IsWordChar(name[i]))
    requires (forall i :: 0 <= i < |value| ==> !IsSpace(value[i]))
    ensures MatchAssignment(name + "=" + value) == Some((name, value))
  {
    var token := name + "=" + value;
    assert token[|token| - 1] == value[|value| - 1];
    NameLengthIs(token, |name|);
    assert token[..|name|] == name && token[|name| + 1..] == value;
  }

  lemma {:induction false} NameLengthIs(s: string, n: nat)
    requires n < |s| && (forall i :: 0 <= i < n ==> IsWordChar(s[i])) && !IsWordChar(s[n])
    ensures NameLength(s) == n
  {
    if n > 0 { NameLengthIs(s[1..], n - 1); }
  }

  ghost predicate IsAssignment(name: string, value: string) {
    && name != "" && value != ""
    && (forall c :: c in name ==> 'a' <= c <= 'z' || 'A' <= c <= 'Z' || '0' <= c <= '9' || c == '_')
    && (forall c :: c in value ==>
          c != ' ' && c != '\t' && c != '\n' && c != '\r' && c != '\U{000B}' && c != '\U{000C}')
  }

  /** Exactly the tokens NAME=value, with one newline behind them or none, are assignments. */
  lemma AssignmentExactly(token: string, name: string, value: string)
    ensures MatchAssignment(token) == Some((name, value)) <==>
      && (token == name + "=" + value || token == name + "=" + value + "\n")
      && IsAssignment(name, value)
  {
    if MatchAssignment(token) == Some((name, value)) {
      AssignmentParts(token, name, value);
    }
    if IsAssignment(name, value) {
      AssignmentRead(name, value);
    }
    hide MatchAssignment, IsAssignment;
  }

  lemma AssignmentRead(name: string, value: string)
    requires IsAssignment(name, value)
    ensures MatchAssignment(name + "=" + value) == Some((name, value))
    ensures MatchAssignment(name + "=" + value + "\n") == Some((name, value))
  {
    hide IsSpace, MatchAssignment;
    assert forall i :: 0 <= i < |name| ==> name[i] in name;
    forall i | 0 <= i < |value| ensures !IsSpace(value[i]) {
      assert value[i] in value;
      SpaceIs(value[i]);
    }
    AssignmentRecognised(name, value);
    assert value[|value| - 1] in value;
    assert (name + "=" + value)[|name + "=" + value| - 1] == value[|value| - 1];
    NewlineBehind(name + "=" + value);
  }

  lemma NewlineBehind(token: string)
    requires token != "" && token[|token| - 1] != '\n'
    ensures MatchAssignment(token + "\n") == MatchAssignment(token)
  {
    hide MatchWhole;
    assert (token + "\n")[..|token|] == token && (token + "\n")[|token|] == '\n';
  }

  lemma AssignmentParts(token: string, name: string, value: string)
    requires MatchAssignment(token) == Some((name, value))
    ensures token == name + "=" + value || token == name + "=" + value + "\n"
    ensures IsAssignment(name, value)
  {
    hide MatchWhole, IsAssignment;
    var body := if token != [] && token[|token| - 1] == '\n' then token[..|token| - 1] else token;
    WholeParts(body, name, value);
    assert token == body || token == body + "\n";
  }

  lemma WholeParts(body: string, name: string, value: string)
    requires MatchWhole(body) == Some((name, value))
    ensures body == name + "=" + value && IsAssignment(name, value)
  {
    hide NameLength, IsSpace;
    var n := NameLength(body);
    assert body == body[..n] + [body[n]] + body[n + 1..];
    forall c | c in value
      ensures c != ' ' && c != '\t' && c != '\n' && c != '\r' && c != '\U{000B}' && c != '\U{000C}'
    {
      var i :| 0 <= i < |value| && value[i] == c;
      assert !IsSpace(body[n + 1 + i]);
      SpaceIs(c);
    }
  }

  lemma {:induction false} FeedEnv(pipeline: seq<Node>, env: seq<(string, string)>)
    requires forall k :: 0 <= k < |env| ==> MatchAssignment(env[k].0 + "=" + env[k].1) == Some(env[k])
    ensures FeedAll(ParserState(BEGIN, None, pipeline, map[]), EnvTokens(env)) ==
      Ok(ParserState(BEGIN, None, pipeline, EnvMap(env)))
  {
    if env != [] {
      var front, last := env[..|env| - 1], env[|env| - 1];
      var p := ParserState(BEGIN, None, pipeline, map[]);
      FeedEnv(pipeline, front);
      FeedAllConcat(p, EnvTokens(front), [last.0 + "=" + last.1]);
      FeedOne(ParserState(BEGIN, None, pipeline, EnvMap(front)), last.0 + "=" + last.1);
    }
  }

  lemma FeedOne(p: ParserState, token: string)
    ensures FeedAll(p, [token]) == Feed(p, token)
  {
    var q := Feed(p, token);
    assert [token][1..] == [];
    if q.Ok? { assert FeedAll(q.value, []) == q; }
  }

  lemma {:induction false} FeedDirs(pipeline: seq<Node>, dirs: seq<string>)
    requires forall k :: 0 <= k < |dirs| ==> dirs[k] != "&&"
    ensures FeedAll(ParserState(BEGIN, None, pipeline, map[]), DirTokens(dirs)) ==
            Ok(ParserState(BEGIN, None, pipeline + ChdirNodes(dirs), map[]))
    decreases |dirs|
  {
    var p := ParserState(BEGIN, None, pipeline, map[]);
    if dirs == [] {
      assert pipeline + ChdirNodes(dirs) == pipeline;
    } else {
      var head := ["cd", dirs[0], "&&"];
      var nodes := [Chdir(Some(dirs[0])), And];
      FeedCd(pipeline, dirs[0]);
      FeedAllConcat(p, head, DirTokens(dirs[1..]));
      FeedDirs(pipeline + nodes, dirs[1..]);
      hide FeedAll, Feed, DirTokens;
      Assoc(pipeline, nodes, ChdirNodes(dirs[1..]));
    }
  }

  lemma CdIsNoAssignment()
    ensures MatchAssignment("cd").None?
  {
  }

  lemma FeedCd(pipeline: seq<Node>, dir: string)
    requires dir != "&&"
    ensures FeedAll(ParserState(BEGIN, None, pipeline, map[]), ["cd", dir, "&&"]) ==
            Ok(ParserState(BEGIN, None, pipeline + [Chdir(Some(dir)), And], map[]))
  {
    CdIsNoAssignment();
    hide MatchAssignment;
    var p := ParserState(BEGIN, None, pipeline, map[]);
    var p1, p2 := p.(mode := CHDIR, current := Some(Chdir(None))), p.(mode := CHDIR, current := Some(Chdir(Some(dir))));
    var p3 := ParserState(BEGIN, None, pipeline + [Chdir(Some(dir)), And], map[]);
    assert Feed(p, "cd") == Ok(p1) && Feed(p1, dir) == Ok(p2) && Feed(p2, "&&") == Ok(p3);
    FeedOne(p2, "&&");
    assert [dir, "&&"][1..] == ["&&"] && ["cd", dir, "&&"][1..] == [dir, "&&"];
    assert FeedAll(p1, [dir, "&&"]) == FeedAll(p2, ["&&"]);
  }

  /** The state in which a stage has been read but not committed. */
  function StageRead(pipeline: seq<Node>, stage: Stage): ParserState {
    ParserState(COMMAND, Some(Cmd(StageCommand(stage, true))), pipeline + ChdirNodes(stage.dirs), map[])
  }

  lemma FeedTwo(p: ParserState, a: string, b: string)
    requires Feed(p, a).Ok?
    ensures FeedAll(p, [a, b]) == Feed(Feed(p, a).value, b)
  {
    assert [a, b][1..] == [b];
    FeedOne(Feed(p, a).value, b);
  }

  /** A command after some of the words behind its program. */
  function Reading(nodes: seq<Node>, program: string, env: map<string, string>, words: seq<Word>): ParserState {
    var output := Output(words);
    var cmd := Command([program] + Arguments(words), Input(words),
                       if output.Some? then OutFile(output.value) else NoOut, Errors(words), env);
    ParserState(COMMAND, Some(Cmd(cmd)), nodes, map[])
  }

  /** A word is read unless it redirects a stream that was redirected before. */
  lemma FeedWord(nodes: seq<Node>, program: string, env: map<string, string>, words: seq<Word>, word: Word)
    requires word.Argument? ==> PlainArgument(word.text)
    ensures FeedAll(Reading(nodes, program, env, words), WordTokens(word)) ==
      if exists w :: w in words && SameStream(w, word) then Err else Ok(Reading(nodes, program, env, words + [word]))
  {
    var p := Reading(nodes, program, env, words);
    FeedWordTokens(p, word);
    assert (words + [word])[..|words|] == words && Arguments(words) + [] == Arguments(words);
    hide FeedAll, WordTokens;
    match word
    case Argument(text) =>
      assert ([program] + Arguments(words)) + [text] == [program] + (Arguments(words) + [text]);
    case ReadFrom(file) =>
      if Input(words).Some? { assert SameStream(ReadFrom(Input(words).value), word); }
    case WriteTo(file) =>
      if Output(words).Some? { assert SameStream(WriteTo(Output(words).value), word); }
    case _ =>
      if Errors(words).ErrFile? { assert SameStream(ErrorsTo(Errors(words).name), word); }
      if Errors(words).ErrToOut? { assert SameStream(ErrorsToOutput, word); }
  }

  lemma FeedWordTokens(p: ParserState, word: Word)
    requires p.mode == COMMAND && p.current.Some? && p.current.value.Cmd?
    requires word.Argument? ==> PlainArgument(word.text)
    ensures var cmd := p.current.value.cmd;
      FeedAll(p, WordTokens(word)) ==
        match word
        case Argument(text) => Ok(p.(current := Some(Cmd(cmd.(argv := cmd.argv + [text])))))
        case ReadFrom(file) =>
          if cmd.stdin.None? then Ok(p.(current := Some(Cmd(cmd.(stdin := Some(file)))))) else Err
        case WriteTo(file) =>
          if cmd.stdout.NoOut? then Ok(p.(current := Some(Cmd(cmd.(stdout := OutFile(file)))))) else Err
        case ErrorsTo(file) =>
          if cmd.stderr.NoErr? then Ok(p.(current := Some(Cmd(cmd.(stderr := ErrFile(file)))))) else Err
        case ErrorsToOutput =>
          if cmd.stderr.NoErr? then Ok(p.(current := Some(Cmd(cmd.(stderr := ErrToOut))))) else Err
  {
    match word
    case Argument(text) => FeedOne(p, text);
    case ReadFrom(file) => FeedTwo(p, "<", file);
    case WriteTo(file) => FeedTwo(p, ">", file);
    case ErrorsTo(file) => FeedTwo(p, "2>", file);
    case ErrorsToOutput => FeedOne(p, "2>&1");
  }

  lemma OnceMore(words: seq<Word>)
    requires words != []
    ensures var front, last := words[..|words| - 1], words[|words| - 1];
      OncePerStream(words) <==> OncePerStream(front) && !exists w :: w in front && SameStream(w, last)
  {
    var n := |words| - 1;
    forall i | 0 <= i < n ensures words[i] in words[..n] {
      assert words[..n][i] == words[i];
    }
  }

  lemma NoWords()
    ensures OncePerStream([])
  {
  }

  /** Arguments and redirections behind a program are read in any order, and exactly when no stream is redirected
      twice. */
  lemma {:induction false} FeedWords(nodes: seq<Node>, program: string, env: map<string, string>, words: seq<Word>)
    requires PlainArguments(words)
    ensures FeedAll(Reading(nodes, program, env, []), WordsTokens(words)) ==
      if OncePerStream(words) then Ok(Reading(nodes, program, env, words)) else Err
  {
    hide FeedAll, WordTokens, Reading, OncePerStream, SameStream;
    if words == [] {
      FeedNone(Reading(nodes, program, env, []));
      NoWords();
    } else {
      var front, last := words[..|words| - 1], words[|words| - 1];
      FeedWords(nodes, program, env, front);
      OnceMore(words);
      FeedAllConcat(Reading(nodes, program, env, []), WordsTokens(front), WordTokens(last));
      if OncePerStream(front) {
        FeedWord(nodes, program, env, front, last);
        assert front + [last] == words;
      }
    }
  }

  /** The state after the assignments, and after the program and its arguments. */
  function EnvRead(nodes: seq<Node>, stage: Stage): ParserState { ParserState(BEGIN, None, nodes, EnvMap(stage.env)) }

  function ArgvRead(nodes: seq<Node>, stage: Stage): ParserState {
    Reading(nodes, stage.program, EnvMap(stage.env), [])
  }

  lemma FeedProgram(nodes: seq<Node>, stage: Stage)
    requires stage.program != "cd" && MatchAssignment(stage.program).None?
    ensures FeedAll(EnvRead(nodes, stage), [stage.program]) == Ok(ArgvRead(nodes, stage))
  {
    assert [stage.program] + [] == [stage.program];
    hide FeedAll, EnvMap, MatchAssignment;
    FeedOne(EnvRead(nodes, stage), stage.program);
  }

  lemma StageParts(pipeline: seq<Node>, stage: Stage)
    ensures StageTokens(stage) ==
      DirTokens(stage.dirs) + EnvTokens(stage.env) + [stage.program] + WordsTokens(stage.words)
    ensures var p4 := ArgvRead(pipeline + ChdirNodes(stage.dirs), stage);
      StageRead(pipeline, stage) == p4.(current := Some(Cmd(StageCommand(stage, true))))
  {
    hide DirTokens, EnvTokens, WordsTokens, EnvMap, ChdirNodes;
  }

  lemma FeedStage(pipeline: seq<Node>, stage: Stage)
    requires Spellable(stage) && OncePerStream(stage.words)
    ensures FeedAll(ParserState(BEGIN, None, pipeline, map[]), StageTokens(stage)) == Ok(StageRead(pipeline, stage))
  {
    FeedStageParts(pipeline, stage);
    hide *;
    var p, nodes := ParserState(BEGIN, None, pipeline, map[]), pipeline + ChdirNodes(stage.dirs);
    StageParts(pipeline, stage);
    FeedAllConcat(p, DirTokens(stage.dirs), EnvTokens(stage.env));
    FeedAllConcat(p, DirTokens(stage.dirs) + EnvTokens(stage.env), [stage.program]);
    FeedAllConcat(p, DirTokens(stage.dirs) + EnvTokens(stage.env) + [stage.program], WordsTokens(stage.words));
  }

  lemma ReadingIsRead(nodes: seq<Node>, stage: Stage)
    ensures Reading(nodes, stage.program, EnvMap(stage.env), stage.words) ==
      ArgvRead(nodes, stage).(current := Some(Cmd(StageCommand(stage, true))))
  {
    hide Arguments, Input, Output, Errors, EnvMap;
  }

  lemma FeedStageParts(pipeline: seq<Node>, stage: Stage)
    requires Spellable(stage) && OncePerStream(stage.words)
    ensures var nodes := pipeline + ChdirNodes(stage.dirs);
      && FeedAll(ParserState(BEGIN, None, pipeline, map[]), DirTokens(stage.dirs)) ==
        Ok(ParserState(BEGIN, None, nodes, map[]))
      && FeedAll(ParserState(BEGIN, None, nodes, map[]), EnvTokens(stage.env)) == Ok(EnvRead(nodes, stage))
      && FeedAll(EnvRead(nodes, stage), [stage.program]) == Ok(ArgvRead(nodes, stage))
      && FeedAll(ArgvRead(nodes, stage), WordsTokens(stage.words)) ==
         Ok(ArgvRead(nodes, stage).(current := Some(Cmd(StageCommand(stage, true)))))
  {
    hide FeedAll, EnvMap, DirTokens, EnvTokens, WordsTokens, ChdirNodes, StageCommand;
    var nodes := pipeline + ChdirNodes(stage.dirs);
    FeedDirs(pipeline, stage.dirs);
    FeedEnv(nodes, stage.env);
    FeedProgram(nodes, stage);
    ReadingIsRead(nodes, stage);
    FeedWords(nodes, stage.program, EnvMap(stage.env), stage.words);
  }

  /** The state in which everything has been read and the last node is not yet committed. */
  function Pending(nodes: seq<Node>): ParserState
    requires nodes != []
  {
    ParserState(COMMAND, Some(nodes[|nodes| - 1]), nodes[..|nodes| - 1], map[])
  }

  function Begin(nodes: seq<Node>): ParserState { ParserState(BEGIN, None, nodes, map[]) }

  /** What has been read after an operator token, when `head` leads to a pending node and `tail` goes on. */
  lemma FeedOperator(p: ParserState, head: seq<string>, nodes: seq<Node>, token: string, committed: seq<Node>,
                     tail: seq<string>, result: Result<ParserState>)
    requires nodes != [] && FeedAll(p, head) == Ok(Pending(nodes))
    requires Feed(Pending(nodes), token) == Ok(Begin(committed))
    requires FeedAll(Begin(committed), tail) == result
    ensures FeedAll(p, head + ([token] + tail)) == result
  {
    FeedOne(Pending(nodes), token);
    FeedAllConcat(p, head, [token]);
    FeedAllConcat(p, head + [token], tail);
    Assoc(head, [token], tail);
  }

  lemma StageReadIsPending(pipeline: seq<Node>, stage: Stage)
    ensures StageRead(pipeline, stage) ==
      Pending(pipeline + (ChdirNodes(stage.dirs) + [Cmd(StageCommand(stage, true))]))
  {
  }

  lemma CommitPipe(pipeline: seq<Node>, stage: Stage)
    requires Output(stage.words).None?
    ensures Feed(StageRead(pipeline, stage), "|") ==
            Ok(Begin(pipeline + (ChdirNodes(stage.dirs) + [Cmd(StageCommand(stage, false))] + [Pipe])))
  {
    var before, cmd := pipeline + ChdirNodes(stage.dirs), Cmd(StageCommand(stage, false));
    assert Feed(StageRead(pipeline, stage), "|") == Ok(Begin(before + [cmd, Pipe]));
    assert before + [cmd, Pipe] == pipeline + (ChdirNodes(stage.dirs) + [cmd] + [Pipe]);
  }

  lemma {:induction false} StagesLast(stages: seq<Stage>)
    requires stages != []
    ensures StageNodes(stages) != []
    ensures StageNodes(stages)[|StageNodes(stages)| - 1] == Cmd(StageCommand(stages[|stages| - 1], true))
    decreases |stages|
  {
    if |stages| > 1 {
      StagesLast(stages[1..]);
      hide ChdirNodes, StageCommand;
    }
  }

  lemma StagesSplit(stages: seq<Stage>)
    requires |stages| > 1
    ensures StageNodes(stages) ==
      ChdirNodes(stages[0].dirs) + [Cmd(StageCommand(stages[0], false))] + [Pipe] + StageNodes(stages[1..])
    ensures StagesTokens(stages) == StageTokens(stages[0]) + (["|"] + StagesTokens(stages[1..]))
  {
    var front := ChdirNodes(stages[0].dirs) + [Cmd(StageCommand(stages[0], false))];
    Assoc(front, [Pipe], StageNodes(stages[1..]));
  }

  lemma {:induction false} FeedStages(pipeline: seq<Node>, stages: seq<Stage>)
    requires stages != [] && (forall k :: 0 <= k < |stages| ==> Spellable(stages[k]) && OncePerStream(stages[k].words))
    requires forall k :: 0 <= k < |stages| - 1 ==> Output(stages[k].words).None?
    ensures StageNodes(stages) != []
    ensures FeedAll(Begin(pipeline), StagesTokens(stages)) == Ok(Pending(pipeline + StageNodes(stages)))
    decreases |stages|
  {
    var stage := stages[0];
    StagesLast(stages);
    if |stages| == 1 {
      FeedSingle(pipeline, stages);
    } else {
      assert Spellable(stage) && OncePerStream(stage.words);
      hide *;
      FeedStages(pipeline + StageHead(stage), stages[1..]);
      FeedMore(pipeline, stages);
    }
  }

  /** A stage that a pipe follows, with the pipe. */
  function StageHead(stage: Stage): seq<Node> {
    ChdirNodes(stage.dirs) + [Cmd(StageCommand(stage, false))] + [Pipe]
  }

  lemma {:induction false} FeedMore(pipeline: seq<Node>, stages: seq<Stage>)
    requires |stages| > 1 && Spellable(stages[0]) && OncePerStream(stages[0].words) && Output(stages[0].words).None?
    requires StageNodes(stages[1..]) != []
    requires var before := pipeline + StageHead(stages[0]);
      FeedAll(Begin(before), StagesTokens(stages[1..])) == Ok(Pending(before + StageNodes(stages[1..])))
    ensures StageNodes(stages) != []
    ensures FeedAll(Begin(pipeline), StagesTokens(stages)) == Ok(Pending(pipeline + StageNodes(stages)))
  {
    var stage, head := stages[0], StageHead(stages[0]);
    StagesLast(stages);
    CommitPipe(pipeline, stage);
    StagesSplit(stages);
    assert StageNodes(stages) == head + StageNodes(stages[1..]);
    assert Feed(StageRead(pipeline, stage), "|") == Ok(Begin(pipeline + head));
    hide *;
    FeedStage(pipeline, stage);
    StageReadIsPending(pipeline, stage);
    Assoc(pipeline, head, StageNodes(stages[1..]));
    FeedOperator(Begin(pipeline), StageTokens(stage),
      pipeline + (ChdirNodes(stage.dirs) + [Cmd(StageCommand(stage, true))]), "|",
                 pipeline + head, StagesTokens(stages[1..]), Ok(Pending(pipeline + head + StageNodes(stages[1..]))));
  }

  lemma {:induction false} FeedSingle(pipeline: seq<Node>, stages: seq<Stage>)
    requires |stages| == 1 && Spellable(stages[0]) && OncePerStream(stages[0].words)
    ensures StageNodes(stages) != []
    ensures FeedAll(Begin(pipeline), StagesTokens(stages)) == Ok(Pending(pipeline + StageNodes(stages)))
  {
    var stage := stages[0];
    assert StagesTokens(stages) == StageTokens(stage) + [] == StageTokens(stage);
    assert StageNodes(stages) == ChdirNodes(stage.dirs) + [Cmd(StageCommand(stage, true))] + [];
    assert StageNodes(stages) == ChdirNodes(stage.dirs) + [Cmd(StageCommand(stage, true))];
    hide *;
    FeedStage(pipeline, stage);
    StageReadIsPending(pipeline, stage);
  }

  lemma CommitOperator(nodes: seq<Node>, line: Line, stage: Stage)
    requires nodes != [] && nodes[|nodes| - 1] == Cmd(StageCommand(stage, true)) && !line.rest.End?
    ensures var and_ := line.rest.AndThen?;
      Feed(Pending(nodes), if and_ then "&&" else "||") == Ok(Begin(nodes + [if and_ then And else Or]))
  {
    var op := if line.rest.AndThen? then And else Or;
    assert nodes[..|nodes| - 1] + [nodes[|nodes| - 1], op] == nodes + [op];
  }

  lemma LineSplit(line: Line)
    ensures line.rest.End? ==>
      LineNodes(line) == StageNodes(line.stages) && LineTokens(line) == StagesTokens(line.stages)
    ensures line.rest.AndThen? ==> LineNodes(line) == StageNodes(line.stages) + ([And] + LineNodes(line.rest.next))
    ensures line.rest.AndThen? ==> LineTokens(line) == StagesTokens(line.stages) + (["&&"] + LineTokens(line.rest.next))
    ensures line.rest.OrElse? ==> LineNodes(line) == StageNodes(line.stages) + ([Or] + LineNodes(line.rest.next))
    ensures line.rest.OrElse? ==> LineTokens(line) == StagesTokens(line.stages) + (["||"] + LineTokens(line.rest.next))
  {
    hide StageNodes, StagesTokens;
  }

  lemma {:induction false} FeedLine(pipeline: seq<Node>, line: Line)
    requires GoodLine(line) && SpellableLine(line)
    ensures LineNodes(line) != []
    ensures FeedAll(Begin(pipeline), LineTokens(line)) == Ok(Pending(pipeline + LineNodes(line)))
    decreases line
  {
    var stages := line.stages;
    FeedStages(pipeline, stages);
    StagesLast(stages);
    LineSplit(line);
    if !line.rest.End? {
      var next, and_ := line.rest.next, line.rest.AndThen?;
      var op, token := if and_ then And else Or, if and_ then "&&" else "||";
      var nodes := pipeline + StageNodes(stages);
      CommitOperator(nodes, line, stages[|stages| - 1]);
      hide FeedAll, StageNodes, StagesTokens, LineTokens, LineNodes, Pending, Feed;
      FeedLine(nodes + [op], next);
      hide *;
      FeedOperator(Begin(pipeline), StagesTokens(stages), nodes, token, nodes + [op], LineTokens(next),
                   Ok(Pending(nodes + [op] + LineNodes(next))));
      Assoc(nodes, [op], LineNodes(next));
      Assoc(pipeline, StageNodes(stages), [op] + LineNodes(next));
    }
  }

  lemma NothingInFront(nodes: seq<Node>)
    ensures [] + nodes == nodes
  {
  }

  lemma ParsedPending(tokens: seq<string>, nodes: seq<Node>)
    requires nodes != [] && FeedAll(START, tokens) == Ok(Pending(nodes))
    ensures Parsed(tokens) == Ok(nodes)
  {
    hide FeedAll;
    assert nodes[..|nodes| - 1] + [nodes[|nodes| - 1]] == nodes;
  }

  /** Parsing the spelling of a tree gives the node list of the tree. */
  lemma ParseRoundTrip(line: Line)
    requires GoodLine(line) && SpellableLine(line)
    ensures Parsed(LineTokens(line)) == Ok(LineNodes(line))
  {
    assert Begin([]) == START;
    hide *;
    FeedLine([], line);
    NothingInFront(LineNodes(line));
    ParsedPending(LineTokens(line), LineNodes(line));
  }

  /** What stands behind a program is read in any order: the arguments in order, each redirection as it is given. It is
      read exactly when no stream is redirected twice. */
  lemma WordsInAnyOrder(nodes: seq<Node>, program: string, env: map<string, string>, words: seq<Word>)
    requires program != "cd" && MatchAssignment(program).None? && PlainArguments(words)
    ensures var r := FeedAll(ParserState(BEGIN, None, nodes, env), [program] + WordsTokens(words));
      && (r.Ok? <==> OncePerStream(words))
      && (r.Ok? ==>
            && r.value.mode == COMMAND && r.value.pipeline == nodes && r.value.env == map[]
            && r.value.current.Some? && r.value.current.value.Cmd?
            && var cmd := r.value.current.value.cmd;
              && cmd.argv == [program] + Arguments(words) && cmd.env == env
              && (forall f :: cmd.stdin == Some(f) <==> ReadFrom(f) in words)
              && (forall f :: cmd.stdout == OutFile(f) <==> WriteTo(f) in words) && !cmd.stdout.PipeOut?
              && (forall f :: cmd.stderr == ErrFile(f) <==> ErrorsTo(f) in words)
              && (cmd.stderr == ErrToOut <==> ErrorsToOutput in words))
  {
    var p := ParserState(BEGIN, None, nodes, env);
    assert [program] + [] == [program];
    assert Feed(p, program) == Ok(Reading(nodes, program, env, []));
    FeedOne(p, program);
    FeedAllConcat(p, [program], WordsTokens(words));
    FeedWords(nodes, program, env, words);
    if OncePerStream(words) {
      OnlyOnes(words);
    }
    hide *;
  }

  lemma OnlyOnes(words: seq<Word>)
    requires OncePerStream(words)
    ensures forall f :: Input(words) == Some(f) <==> ReadFrom(f) in words
    ensures forall f :: Output(words) == Some(f) <==> WriteTo(f) in words
    ensures forall f :: Errors(words) == ErrFile(f) <==> ErrorsTo(f) in words
    ensures Errors(words) == ErrToOut <==> ErrorsToOutput in words
  {
    forall a, b | a in words && b in words && SameStream(a, b) ensures a == b {
      var i :| 0 <= i < |words| && words[i] == a;
      var j :| 0 <= j < |words| && words[j] == b;
    }
    hide OncePerStream, Input, Output, Errors;
  }

  /** The arguments of two lists of words, one behind the other, and of a single word. */
  lemma {:induction false} ArgumentsJoin(a: seq<Word>, b: seq<Word>)
    ensures Arguments(a + b) == Arguments(a) + Arguments(b)
  {
    if b == [] {
      assert a + b == a;
    } else {
      ArgumentsJoin(a, b[..|b| - 1]);
      assert (a + b)[..|a + b| - 1] == a + b[..|b| - 1];
    }
  }

  lemma OneArgument(word: Word)
    ensures Arguments([word]) == if word.Argument? then [word.text] else []
  {
    assert [word][..0] == [];
  }

  lemma NoAssignment(token: string)
    requires '=' !in token
    ensures MatchAssignment(token).None?
  {
    hide NameLength;
  }

  /** A program as the first token of a command. */
  lemma FeedName(nodes: seq<Node>, program: string, env: map<string, string>)
    requires '=' !in program && program != "cd"
    ensures Feed(ParserState(BEGIN, None, nodes, env), program) ==
            Ok(ParserState(COMMAND, Some(Cmd(Command([program], None, NoOut, NoErr, env))), nodes, map[]))
  {
    NoAssignment(program);
    hide MatchAssignment;
  }

  function InCommand(nodes: seq<Node>, cmd: Command): ParserState { ParserState(COMMAND, Some(Cmd(cmd)), nodes, map[]) }

  /** The tokens that are not taken as words, and the file names behind redirections. */
  lemma FeedSymbols(nodes: seq<Node>, cmd: Command, file: string)
    ensures var p := InCommand(nodes, cmd);
      && Feed(p, "<") == Ok(p.(mode := STDIN))
      && Feed(p, ">") == Ok(p.(mode := STDOUT))
      && Feed(p, "2>") == Ok(p.(mode := STDERR))
      && Feed(p, "2>&1") == (if cmd.stderr.NoErr? then Ok(InCommand(nodes, cmd.(stderr := ErrToOut))) else Err)
      && Feed(p, "|") ==
         (if cmd.stdout.NoOut? then Ok(Begin(nodes + [Cmd(cmd.(stdout := PipeOut)), Pipe])) else Err)
      && Feed(p, "&&") == Ok(Begin(nodes + [Cmd(cmd), And]))
      && Feed(p, "||") == Ok(Begin(nodes + [Cmd(cmd), Or]))
      && Feed(p.(mode := STDIN), file) ==
         (if cmd.stdin.None? then Ok(InCommand(nodes, cmd.(stdin := Some(file)))) else Err)
      && Feed(p.(mode := STDOUT), file) ==
         (if cmd.stdout.NoOut? then Ok(InCommand(nodes, cmd.(stdout := OutFile(file)))) else Err)
      && Feed(p.(mode := STDERR), file) ==
         (if cmd.stderr.NoErr? then Ok(InCommand(nodes, cmd.(stderr := ErrFile(file)))) else Err)
  {
  }

  lemma FeedCons(p: ParserState, token: string, q: ParserState, rest: seq<string>, last: ParserState)
    requires Feed(p, token) == Ok(q) && FeedAll(q, rest) == Ok(last)
    ensures FeedAll(p, [token] + rest) == Ok(last)
  {
    assert ([token] + rest)[1..] == rest;
    hide Feed;
  }

  lemma FeedNone(p: ParserState)
    ensures FeedAll(p, []) == Ok(p)
  {
  }

  function Named(program: string, env: map<string, string>): Command { Command([program], None, NoOut, NoErr, env) }

  lemma FeedNamed(nodes: seq<Node>, program: string, env: map<string, string>)
    requires '=' !in program && program != "cd"
    ensures Feed(ParserState(BEGIN, None, nodes, env), program) == Ok(InCommand(nodes, Named(program, env)))
    ensures env == map[] ==> Feed(Begin(nodes), program) == Ok(InCommand(nodes, Named(program, env)))
  {
    FeedName(nodes, program, env);
  }

  /** The first command of the source's example: `./foo.py 2>&1 < xxx` and the pipe. */
  lemma SourceFirst(tail: seq<string>, last: ParserState)
    requires FeedAll(Begin([Cmd(Command(["./foo.py"], Some("xxx"), PipeOut, ErrToOut, map[])), Pipe]), tail) == Ok(last)
    ensures FeedAll(Begin([]), ["./foo.py"] + (["2>&1"] + (["<"] + (["xxx"] + (["|"] + tail))))) == Ok(last)
  {
    hide *;
    var a := Command(["./foo.py"], None, NoOut, NoErr, map[]);
    var b, c := a.(stderr := ErrToOut), a.(stderr := ErrToOut, stdin := Some("xxx"));
    FeedNamed([], "./foo.py", map[]);
    FeedSymbols([], a, "xxx");
    FeedSymbols([], b, "xxx");
    FeedSymbols([], c, "xxx");
    NothingInFront([Cmd(c.(stdout := PipeOut)), Pipe]);
    StatesAre([], "./foo.py");
    FeedCons(InCommand([], c), "|", Begin([Cmd(c.(stdout := PipeOut)), Pipe]), tail, last);
    FeedCons(InCommand([], b).(mode := STDIN), "xxx", InCommand([], c), ["|"] + tail, last);
    FeedCons(InCommand([], b), "<", InCommand([], b).(mode := STDIN), ["xxx"] + (["|"] + tail), last);
    FeedCons(InCommand([], a), "2>&1", InCommand([], b), ["<"] + (["xxx"] + (["|"] + tail)), last);
    FeedCons(Begin([]), "./foo.py", InCommand([], a), ["2>&1"] + (["<"] + (["xxx"] + (["|"] + tail))), last);
  }

  /** The example of the source, whose redirections stand in an order of their own. */
  lemma SourceExample()
    ensures Parsed(["./foo.py", "2>&1", "<", "xxx", "|", "cat", "&&", "ls"]) ==
      Ok([ Cmd(Command(["./foo.py"], Some("xxx"), PipeOut, ErrToOut, map[])), Pipe,
           Cmd(Command(["cat"], None, NoOut, NoErr, map[])), And,
           Cmd(Command(["ls"], None, NoOut, NoErr, map[])) ])
  {
    hide *;
    var foo := Cmd(Command(["./foo.py"], Some("xxx"), PipeOut, ErrToOut, map[]));
    var cat, ls := Command(["cat"], None, NoOut, NoErr, map[]), Command(["ls"], None, NoOut, NoErr, map[]);
    var first := [foo, Pipe];
    var second := first + [Cmd(cat), And];
    StatesAre([], "cat");
    StatesAre([], "ls");
    FeedNamed(first, "cat", map[]);
    FeedSymbols(first, cat, "");
    FeedNamed(second, "ls", map[]);
    FeedNone(InCommand(second, ls));
    FeedCons(Begin(second), "ls", InCommand(second, ls), [], InCommand(second, ls));
    FeedCons(InCommand(first, cat), "&&", Begin(second), ["ls"] + [], InCommand(second, ls));
    FeedCons(Begin(first), "cat", InCommand(first, cat), ["&&"] + (["ls"] + []), InCommand(second, ls));
    SourceFirst(["cat"] + (["&&"] + (["ls"] + [])), InCommand(second, ls));
    SourceTokens();
    ParsedFrom(["./foo.py", "2>&1", "<", "xxx", "|", "cat", "&&", "ls"], second, ls);
    assert second + [Cmd(ls)] == [foo, Pipe, Cmd(cat), And, Cmd(ls)];
  }

  lemma SourceTokens()
    ensures ["./foo.py"] + (["2>&1"] + (["<"] + (["xxx"] + (["|"] + (["cat"] + (["&&"] + (["ls"] + []))))))) ==
            ["./foo.py", "2>&1", "<", "xxx", "|", "cat", "&&", "ls"]
  {
  }

  lemma ParsedFrom(tokens: seq<string>, nodes: seq<Node>, cmd: Command)
    requires FeedAll(START, tokens) == Ok(InCommand(nodes, cmd))
    ensures Parsed(tokens) == Ok(nodes + [Cmd(cmd)])
  {
    hide FeedAll;
  }

  /** A directory change takes one directory, and no assignments in front of it. */
  lemma FeedCdRefused(nodes: seq<Node>, env: map<string, string>, dir: string, again: string)
    requires dir != "&&" && again != "&&"
    ensures FeedAll(Begin(nodes), ["cd", dir, again]) == Err
    ensures env != map[] ==> Feed(ParserState(BEGIN, None, nodes, env), "cd") == Err
  {
    CdIsNoAssignment();
    hide MatchAssignment;
    var p1, p2 := Begin(nodes).(mode := CHDIR, current := Some(Chdir(None))),
                  Begin(nodes).(mode := CHDIR, current := Some(Chdir(Some(dir))));
    assert Feed(Begin(nodes), "cd") == Ok(p1) && Feed(p1, dir) == Ok(p2) && Feed(p2, again) == Err;
    assert [dir, again][1..] == [again] && ["cd", dir, again][1..] == [dir, again];
    assert FeedAll(p2, [again]) == Err;
    assert FeedAll(p1, [dir, again]) == FeedAll(p2, [again]);
  }

  lemma StatesAre(nodes: seq<Node>, program: string)
    ensures Named(program, map[]) == Command([program], None, NoOut, NoErr, map[]) && Begin([]) == START
  {
  }

  // ---------------------------------------------------------------- what a tree means

  datatype Source = Inherited | FromPipe(process: nat) | FromFile(name: string)

  /** One started process. */
  datatype Spawn = Spawn(
    argv: seq<string>, env: map<string, string>, cwd: string, stdin: Source, stdout: Stdout, stderr: Stderr)

  /** os.path.join of two parts: an absolute second part stands alone, otherwise a slash separates them. */
  function Join(cwd: string, dir: string): (path: string)
    ensures dir != "" && dir[0] == '/' ==> path == dir
    ensures (dir == "" || dir[0] != '/') && cwd != "" && cwd[|cwd| - 1] != '/' ==> path == cwd + "/" + dir
    ensures (dir == "" || dir[0] != '/') && (cwd == "" || cwd[|cwd| - 1] == '/') ==> path == cwd + dir
  {
    if dir != "" && dir[0] == '/' then dir
    else if cwd == "" || cwd[|cwd| - 1] == '/' then cwd + dir
    else cwd + "/" + dir
  }

  function JoinAll(cwd: string, dirs: seq<string>): string
    decreases |dirs|
  {
    if dirs == [] then cwd else JoinAll(Join(cwd, dirs[0]), dirs[1..])
  }

  /** Process `n`; behind a pipe it reads from process `n - 1`, whatever its own redirection says. */
  function StageSpawn(stage: Stage, piped: bool, cwd: string, n: nat, last: bool): Spawn {
    var cmd := StageCommand(stage, last);
    Spawn(cmd.argv, cmd.env, cwd,
          if piped && n > 0 then FromPipe(n - 1) else if cmd.stdin.Some? then FromFile(cmd.stdin.value) else Inherited,
          cmd.stdout, cmd.stderr)
  }

  /** The processes of a pipe and the directory behind it. */
  function EvalStages(stages: seq<Stage>, piped: bool, cwd: string, n: nat): (seq<Spawn>, string) {
    if stages == [] then ([], cwd)
    else
      var here := JoinAll(cwd, stages[0].dirs);
      var rest := EvalStages(stages[1..], true, here, n + 1);
      ([StageSpawn(stages[0], piped, here, n, |stages| == 1)] + rest.0, rest.1)
  }

  /** The exit code of a line, given the exit code of each process by its number: that of a pipe is its
      last process's; a non-zero code ends the line at `&&`, a zero code ends it at `||`. */
  function ExitCode(line: Line, n: nat, codes: int -> int): int {
    var code := codes(n + |line.stages| - 1);
    match line.rest
    case End => code
    case AndThen(next) => if code != 0 then code else ExitCode(next, n + |line.stages|, codes)
    case OrElse(next) => if code == 0 then code else ExitCode(next, n + |line.stages|, codes)
  }

  /** The processes that a line starts, in order. */
  function Spawns(line: Line, piped: bool, cwd: string, n: nat, codes: int -> int): seq<Spawn> {
    var (spawns, cwd') := EvalStages(line.stages, piped, cwd, n);
    var code := codes(n + |line.stages| - 1);
    spawns +
    match line.rest
    case End => []
    case AndThen(next) => if code != 0 then [] else Spawns(next, false, cwd', n + |line.stages|, codes)
    case OrElse(next) => if code == 0 then [] else Spawns(next, false, cwd', n + |line.stages|, codes)
  }

  // ---------------------------------------------------------------- the interpreter

  datatype RunResult = Exit(code: int) | FellThrough | Raised

  datatype Handle = Handle(id: nat, name: string, isDevNull: bool)

  predicate IsDevNull(name: string) { name == "NUL:" || name == "/dev/null" }

  /** The handles that have to be closed. */
  function Closable(handles: seq<Handle>): seq<nat> {
    if handles == [] then []
    else
      var last := handles[|handles| - 1];
      Closable(handles[..|handles| - 1]) + if last.isDevNull then [] else [last.id]
  }

  lemma {:induction false} ClosableConcat(a: seq<Handle>, b: seq<Handle>)
    ensures Closable(a + b) == Closable(a) + Closable(b)
  {
    if b == [] {
      assert a + b == a;
    } else {
      ClosableConcat(a, b[..|b| - 1]);
      assert (a + b)[..|a + b| - 1] == a + b[..|b| - 1];
    }
  }

  /** The numbers below `n`, in order. */
  function Count(n: nat): (r: seq<nat>)
    ensures |r| == n && forall i :: 0 <= i < n ==> r[i] == i
  {
    if n == 0 then [] else Count(n - 1) + [n - 1]
  }

  ghost predicate Numbered(handles: seq<Handle>) { forall i :: 0 <= i < |handles| ==> handles[i].id == i }

  /** Waits for the commands of a pipe; the result is that of the last one, by way of "any failed?". */
  method ExecPipedCommands(first: nat, end: nat, codes: int -> int, waited: seq<nat>)
    returns (retval: int, waited': seq<nat>)
    requires first <= end && waited == Count(first)
    ensures waited' == Count(end)
    ensures retval == if first == end then 0 else codes(end - 1)
  {
    var retvals := [];
    waited' := waited;
    for k := first to end
      invariant |retvals| == k - first && waited' == Count(k)
      invariant forall j :: 0 <= j < |retvals| ==> retvals[j] == codes(first + j)
    {
      retvals, waited' := retvals + [codes(k)], waited' + [k];
    }
    retval := 0;
    for j := 0 to |retvals|
      invariant retval == 0 && forall i :: 0 <= i < j ==> retvals[i] == 0
    {
      if retvals[j] != 0 {
        retval := retvals[|retvals| - 1];
        break;
      }
    }
    assert first < end ==> retvals[|retvals| - 1] == codes(end - 1);
  }

  /** Closes all files except the null device. */
  method CloseAll(files: seq<Handle>, closed: seq<nat>) returns (closed': seq<nat>)
    ensures closed' == closed + Closable(files)
  {
    closed' := closed;
    for i := 0 to |files|
      invariant closed' == closed + Closable(files[..i])
    {
      assert files[..i + 1][..i] == files[..i];
      if !files[i].isDevNull {
        closed' := closed' + [files[i].id];
      }
    }
    assert files[..|files|] == files;
  }

  /** The books of a run: all handles up to now are those of finished pipes and the current pipe's
      `files`; the former are closed, and the first `first` processes have been waited for. */
  ghost predicate Books(batches: seq<Handle>, files: seq<Handle>, handles: seq<Handle>, closed: seq<nat>, first: nat,
                        waited: seq<nat>) {
    handles == batches + files && closed == Closable(batches) && Numbered(handles) && waited == Count(first)
  }

  /** The end of a pipe: its commands are waited for and its files closed. */
  method FinishPipe(first: nat, end: nat, codes: int -> int, waited: seq<nat>, files: seq<Handle>, closed: seq<nat>,
                    ghost batches: seq<Handle>, ghost handles: seq<Handle>)
    returns (retval: int, waited': seq<nat>, closed': seq<nat>)
    requires first < end && Books(batches, files, handles, closed, first, waited)
    ensures retval == codes(end - 1)
    ensures waited' == Count(end) && closed' == Closable(handles) && Numbered(handles)
    ensures Books(handles, [], handles, closed', end, waited')
  {
    hide Count, Closable;
    retval, waited' := ExecPipedCommands(first, end, codes, waited);
    closed' := CloseAll(files, closed);
    ClosableConcat(batches, files);
    assert handles + [] == handles;
  }

  /** Name of each file, and whether it is the null device. */
  function Files(handles: seq<Handle>): (r: seq<(string, bool)>)
    ensures |r| == |handles| && forall i :: 0 <= i < |r| ==> r[i] == (handles[i].name, handles[i].isDevNull)
  {
    seq(|handles|, i requires 0 <= i < |handles| => (handles[i].name, handles[i].isDevNull))
  }

  /** The files that were opened for a process: those of its input, its output and its errors, in this order. */
  function OpenedFor(spawn: Spawn): (r: seq<(string, bool)>)
    ensures |r| == (if spawn.stdin.FromFile? then 1 else 0) + (if spawn.stdout.OutFile? then 1 else 0)
                 + (if spawn.stderr.ErrFile? then 1 else 0)
    ensures spawn.stdin.FromFile? ==> r[0] == (spawn.stdin.name, false)
    ensures spawn.stdout.OutFile? ==> var k := if spawn.stdin.FromFile? then 1 else 0;
      r[k] == (spawn.stdout.name, spawn.stdout.name == "NUL:" || spawn.stdout.name == "/dev/null")
    ensures spawn.stderr.ErrFile? ==>
      r[|r| - 1] == (spawn.stderr.name, spawn.stderr.name == "NUL:" || spawn.stderr.name == "/dev/null")
  {
    (if spawn.stdin.FromFile? then [(spawn.stdin.name, false)] else []) +
    (if spawn.stdout.OutFile? then [(spawn.stdout.name, IsDevNull(spawn.stdout.name))] else []) +
    (if spawn.stderr.ErrFile? then [(spawn.stderr.name, IsDevNull(spawn.stderr.name))] else [])
  }

  /** Process by process. */
  function OpenedForAll(spawns: seq<Spawn>): seq<(string, bool)> {
    if spawns == [] then [] else OpenedForAll(spawns[..|spawns| - 1]) + OpenedFor(spawns[|spawns| - 1])
  }

  lemma OpenedForOneMore(spawns: seq<Spawn>, spawn: Spawn)
    ensures OpenedForAll(spawns + [spawn]) == OpenedForAll(spawns) + OpenedFor(spawn)
  {
    assert (spawns + [spawn])[..|spawns|] == spawns;
    hide OpenedFor;
  }

  /** The files of each process are among those of all, behind the files of the processes before it and before the
      files of those behind it. */
  lemma {:induction false} OpenedForEach(spawns: seq<Spawn>, k: nat)
    requires k < |spawns|
    ensures var from, files := |OpenedForAll(spawns[..k])|, OpenedFor(spawns[k]);
      from + |files| <= |OpenedForAll(spawns)| && OpenedForAll(spawns)[from..from + |files|] == files
    ensures |OpenedForAll(spawns[..k + 1])| == |OpenedForAll(spawns[..k])| + |OpenedFor(spawns[k])|
    decreases |spawns|
  {
    hide OpenedFor;
    var n := |spawns| - 1;
    assert spawns[..k + 1][..k] == spawns[..k];
    if k < n {
      var front := spawns[..n];
      OpenedForEach(front, k);
      assert front[..k] == spawns[..k];
      SliceOfPrefix(OpenedForAll(front), OpenedFor(spawns[n]), |OpenedForAll(spawns[..k])|, |OpenedFor(spawns[k])|);
    } else {
      assert spawns[..k + 1] == spawns;
    }
  }

  lemma SliceOfPrefix<T>(a: seq<T>, b: seq<T>, from: nat, length: nat)
    requires from + length <= |a|
    ensures (a + b)[from..from + length] == a[from..from + length]
  {
  }

  lemma FilesOneMore(handles: seq<Handle>, handle: Handle)
    ensures Files(handles + [handle]) == Files(handles) + [(handle.name, handle.isDevNull)]
  {
  }

  lemma FilesJoin(a: seq<Handle>, b: seq<Handle>)
    ensures Files(a + b) == Files(a) + Files(b)
  {
  }

  /** Opens the files of a command and starts it. */
  method Start(cmd: Command, piped: bool, cwd: string, started: seq<Spawn>, files: seq<Handle>, handles: seq<Handle>,
               ghost batches: seq<Handle>, ghost closed: seq<nat>, ghost first: nat, ghost waited: seq<nat>)
    returns (spawn: Spawn, files': seq<Handle>, handles': seq<Handle>)
    requires piped ==> started != []
    requires Books(batches, files, handles, closed, first, waited)
    ensures spawn == CommandSpawn(cmd, piped, cwd, started)
    ensures spawn.argv == cmd.argv && spawn.env == cmd.env && spawn.cwd == cwd
    ensures spawn.stdout == cmd.stdout && spawn.stderr == cmd.stderr
    ensures piped && started[|started| - 1].stdout.PipeOut? ==> spawn.stdin == FromPipe(|started| - 1)
    ensures !piped ==> spawn.stdin == if cmd.stdin.Some? then FromFile(cmd.stdin.value) else Inherited
    ensures Files(handles') == Files(handles) + OpenedFor(spawn)
    ensures Books(batches, files', handles', closed, first, waited)
  {
    hide Count, Closable, Files, OpenedFor, IsDevNull, Books;
    var more: seq<Handle> := [];
    var stdin := Inherited;
    if piped {
      if started[|started| - 1].stdout.PipeOut? {
        stdin := FromPipe(|started| - 1);
      }
    } else if cmd.stdin.Some? {
      more := more + [Handle(|handles| + |more|, cmd.stdin.value, false)];
      stdin := FromFile(cmd.stdin.value);
    }
    if cmd.stdout.OutFile? {
      more := more + [Handle(|handles| + |more|, cmd.stdout.name, IsDevNull(cmd.stdout.name))];
    }
    if cmd.stderr.ErrFile? {
      more := more + [Handle(|handles| + |more|, cmd.stderr.name, IsDevNull(cmd.stderr.name))];
    }
    files', handles' := files + more, handles + more;
    spawn := Spawn(cmd.argv, cmd.env, cwd, stdin, cmd.stdout, cmd.stderr);
    FilesJoin(handles, more);
    MoreFiles(spawn, |handles|, more);
    MoreBooks(batches, files, handles, closed, first, waited, more);
  }

  lemma MoreFiles(spawn: Spawn, n: nat, more: seq<Handle>)
    requires more ==
      (var a := if spawn.stdin.FromFile? then [Handle(n, spawn.stdin.name, false)] else [];
       var b := if spawn.stdout.OutFile?
                then a + [Handle(n + |a|, spawn.stdout.name, IsDevNull(spawn.stdout.name))] else a;
       if spawn.stderr.ErrFile? then b + [Handle(n + |b|, spawn.stderr.name, IsDevNull(spawn.stderr.name))] else b)
    ensures Files(more) == OpenedFor(spawn)
  {
  }

  lemma MoreBooks(batches: seq<Handle>, files: seq<Handle>, handles: seq<Handle>, closed: seq<nat>, first: nat,
                  waited: seq<nat>, more: seq<Handle>)
    requires Books(batches, files, handles, closed, first, waited)
    requires forall i :: 0 <= i < |more| ==> more[i].id == |handles| + i
    ensures Books(batches, files + more, handles + more, closed, first, waited)
  {
    Assoc(batches, files, more);
  }

  // ---------------------------------------------------------------- one step of a tree

  /** What is left of a line when the first directory change has been made. */
  function WithoutDir(line: Line): Line
    requires line.stages != [] && line.stages[0].dirs != []
  {
    Line([line.stages[0].(dirs := line.stages[0].dirs[1..])] + line.stages[1..], line.rest)
  }

  /** The part of the node list behind the pipe of a line. */
  function RestNodes(rest: Rest): seq<Node> {
    match rest
    case End => []
    case AndThen(next) => [And] + LineNodes(next)
    case OrElse(next) => [Or] + LineNodes(next)
  }

  /** Does the exit code of the pipe end the line here? */
  predicate Stops(rest: Rest, code: int) { rest.End? || rest.AndThen? == (code != 0) }

  function RestSpawns(rest: Rest, code: int, cwd: string, n: nat, codes: int -> int): seq<Spawn> {
    if Stops(rest, code) then [] else Spawns(rest.next, false, cwd, n, codes)
  }

  lemma NodeParts(line: Line)
    ensures LineNodes(line) == StageNodes(line.stages) + RestNodes(line.rest)
  {
    hide StageNodes;
  }

  lemma SpawnParts(line: Line, piped: bool, cwd: string, n: nat, codes: int -> int, e: (seq<Spawn>, string), code: int)
    requires e == EvalStages(line.stages, piped, cwd, n) && code == codes(n + |line.stages| - 1)
    ensures Spawns(line, piped, cwd, n, codes) == e.0 + RestSpawns(line.rest, code, e.1, n + |line.stages|, codes)
  {
    hide EvalStages;
  }

  lemma ChdirStageNodes(line: Line)
    requires line.stages != [] && line.stages[0].dirs != []
    ensures StageNodes(line.stages) == [Chdir(Some(line.stages[0].dirs[0])), And] + StageNodes(WithoutDir(line).stages)
  {
    var stages, stages', stage := line.stages, WithoutDir(line).stages, line.stages[0];
    var head := [Chdir(Some(stage.dirs[0])), And];
    var tail := [Cmd(StageCommand(stage, |stages| == 1))];
    var tail' := if |stages| == 1 then [] else [Pipe] + StageNodes(stages[1..]);
    assert stages'[1..] == stages[1..];
    assert StageNodes(stages) == head + ChdirNodes(stage.dirs[1..]) + tail + tail';
    assert StageNodes(stages') == ChdirNodes(stage.dirs[1..]) + tail + tail';
    var dirs := ChdirNodes(stage.dirs[1..]);
    hide *;
    Assoc(head, dirs, tail);
    Assoc(head, dirs + tail, tail');
  }

  lemma WithoutDirStages(line: Line)
    requires GoodLine(line) && line.stages[0].dirs != []
    ensures GoodLine(WithoutDir(line)) && WithoutDir(line).rest == line.rest
    ensures WithoutDir(line).stages[0] == line.stages[0].(dirs := line.stages[0].dirs[1..])
    ensures WithoutDir(line).stages[1..] == line.stages[1..] && |WithoutDir(line).stages| == |line.stages|
  {
    var line' := WithoutDir(line);
    assert forall k :: 1 <= k < |line'.stages| ==> line'.stages[k] == line.stages[k];
  }

  lemma StepChdir(line: Line, piped: bool, cwd: string, n: nat, codes: int -> int)
    requires GoodLine(line) && line.stages[0].dirs != []
    ensures GoodLine(WithoutDir(line))
    ensures LineNodes(line) == [Chdir(Some(line.stages[0].dirs[0])), And] + LineNodes(WithoutDir(line))
    ensures ExitCode(line, n, codes) == ExitCode(WithoutDir(line), n, codes)
    ensures Spawns(line, piped, cwd, n, codes) ==
      Spawns(WithoutDir(line), piped, Join(cwd, line.stages[0].dirs[0]), n, codes)
  {
    hide *;
    GoodNotEmpty(line);
    var line', cwd', dir := WithoutDir(line), Join(cwd, line.stages[0].dirs[0]), line.stages[0].dirs[0];
    WithoutDirStages(line);
    ChdirStageNodes(line);
    NodeParts(line);
    NodeParts(line');
    ChdirEval(line, piped, cwd, n, codes);
    var e, code := EvalStages(line.stages, piped, cwd, n), codes(n + |line.stages| - 1);
    SpawnParts(line, piped, cwd, n, codes, e, code);
    SpawnParts(line', piped, cwd', n, codes, e, code);
    Assoc([Chdir(Some(dir)), And], StageNodes(line'.stages), RestNodes(line.rest));
  }

  lemma GoodNotEmpty(line: Line)
    requires GoodLine(line)
    ensures line.stages != []
  {
  }

  lemma ChdirEval(line: Line, piped: bool, cwd: string, n: nat, codes: int -> int)
    requires line.stages != [] && line.stages[0].dirs != []
    requires WithoutDir(line).rest == line.rest && |WithoutDir(line).stages| == |line.stages|
    requires WithoutDir(line).stages[0] == line.stages[0].(dirs := line.stages[0].dirs[1..])
    requires WithoutDir(line).stages[1..] == line.stages[1..]
    ensures EvalStages(WithoutDir(line).stages, piped, Join(cwd, line.stages[0].dirs[0]), n) ==
      EvalStages(line.stages, piped, cwd, n)
    ensures ExitCode(WithoutDir(line), n, codes) == ExitCode(line, n, codes)
  {
    hide Join, WithoutDir;
  }

  lemma {:induction false} PipeStageNodes(stages: seq<Stage>)
    requires |stages| > 1 && stages[0].dirs == []
    ensures StageNodes(stages) == [Cmd(StageCommand(stages[0], false)), Pipe] + StageNodes(stages[1..])
  {
    StagesSplit(stages);
    assert ChdirNodes(stages[0].dirs) + [Cmd(StageCommand(stages[0], false))] + [Pipe] ==
      [Cmd(StageCommand(stages[0], false)), Pipe];
  }

  lemma PipeEval(stages: seq<Stage>, piped: bool, cwd: string, n: nat)
    requires |stages| > 1 && stages[0].dirs == []
    ensures var inner := EvalStages(stages[1..], true, cwd, n + 1);
      EvalStages(stages, piped, cwd, n) == ([StageSpawn(stages[0], piped, cwd, n, false)] + inner.0, inner.1)
  {
    hide StageSpawn;
  }

  lemma StepPipeCode(line: Line, n: nat, codes: int -> int)
    requires GoodLine(line) && |line.stages| > 1
    ensures GoodLine(Line(line.stages[1..], line.rest))
    ensures ExitCode(line, n, codes) == ExitCode(Line(line.stages[1..], line.rest), n + 1, codes)
  {
    var next := Line(line.stages[1..], line.rest);
    assert forall k :: 0 <= k < |next.stages| ==> next.stages[k] == line.stages[k + 1];
  }

  lemma StepPipeNodes(line: Line)
    requires line.stages != [] && line.stages[0].dirs == [] && |line.stages| > 1
    ensures LineNodes(line) ==
      [Cmd(StageCommand(line.stages[0], false)), Pipe] + LineNodes(Line(line.stages[1..], line.rest))
  {
    PipeStageNodes(line.stages);
    NodeParts(line);
    NodeParts(Line(line.stages[1..], line.rest));
    hide *;
    Assoc([Cmd(StageCommand(line.stages[0], false)), Pipe], StageNodes(line.stages[1..]), RestNodes(line.rest));
  }

  lemma StepPipeSpawns(line: Line, piped: bool, cwd: string, n: nat, codes: int -> int)
    requires line.stages != [] && line.stages[0].dirs == [] && |line.stages| > 1
    ensures Spawns(line, piped, cwd, n, codes) ==
            [StageSpawn(line.stages[0], piped, cwd, n, false)] +
              Spawns(Line(line.stages[1..], line.rest), true, cwd, n + 1, codes)
  {
    hide *;
    var m, inner := n + |line.stages|, EvalStages(line.stages[1..], true, cwd, n + 1);
    var spawn, code := [StageSpawn(line.stages[0], piped, cwd, n, false)], codes(m - 1);
    PipeEval(line.stages, piped, cwd, n);
    SpawnParts(line, piped, cwd, n, codes, (spawn + inner.0, inner.1), code);
    SpawnParts(Line(line.stages[1..], line.rest), true, cwd, n + 1, codes, inner, code);
    Assoc(spawn, inner.0, RestSpawns(line.rest, code, inner.1, m, codes));
  }

  lemma StepLast(line: Line, piped: bool, cwd: string, n: nat, codes: int -> int)
    requires GoodLine(line) && line.stages[0].dirs == [] && |line.stages| == 1
    ensures LineNodes(line) == [Cmd(StageCommand(line.stages[0], true))] + RestNodes(line.rest)
    ensures ExitCode(line, n, codes) ==
      if Stops(line.rest, codes(n)) then codes(n) else ExitCode(line.rest.next, n + 1, codes)
    ensures Spawns(line, piped, cwd, n, codes) ==
            [StageSpawn(line.stages[0], piped, cwd, n, true)] + RestSpawns(line.rest, codes(n), cwd, n + 1, codes)
  {
    var spawn := [StageSpawn(line.stages[0], piped, cwd, n, true)];
    assert line.stages[1..] == [];
    assert EvalStages([], true, cwd, n + 1) == ([], cwd);
    assert spawn + [] == spawn;
    assert StageNodes(line.stages) == [] + [Cmd(StageCommand(line.stages[0], true))] + [];
    NodeParts(line);
    SpawnParts(line, piped, cwd, n, codes, (spawn, cwd), codes(n));
  }

  // ---------------------------------------------------------------- the run loop

  /** What the run still owes: `line` is what the remaining nodes stand for. */
  ghost predicate Ahead(whole: Line, codes: int -> int, nodes: seq<Node>, line: Line, piped: bool, cwd: string,
                        started: seq<Spawn>) {
    && GoodLine(line) && nodes == LineNodes(line)
    && ExitCode(whole, 0, codes) == ExitCode(line, |started|, codes)
    && Spawns(whole, false, ".", 0, codes) == started + Spawns(line, piped, cwd, |started|, codes)
    && (piped ==> started != [] && started[|started| - 1].stdout.PipeOut?)
  }

  lemma AheadChdir(whole: Line, codes: int -> int, nodes: seq<Node>, line: Line, piped: bool, cwd: string,
                   started: seq<Spawn>)
    requires Ahead(whole, codes, nodes, line, piped, cwd, started) && line.stages[0].dirs != []
    ensures |nodes| >= 2 && nodes[0] == Chdir(Some(line.stages[0].dirs[0])) && nodes[1] == And
    ensures Ahead(whole, codes, nodes[2..], WithoutDir(line), piped, Join(cwd, line.stages[0].dirs[0]), started)
  {
    StepChdir(line, piped, cwd, |started|, codes);
    hide LineNodes, Spawns, ExitCode, GoodLine, Join;
    assert nodes[2..] == LineNodes(WithoutDir(line));
  }

  lemma AheadPipe(whole: Line, codes: int -> int, nodes: seq<Node>, line: Line, piped: bool, cwd: string,
                  started: seq<Spawn>)
    requires Ahead(whole, codes, nodes, line, piped, cwd, started) && line.stages[0].dirs == [] && |line.stages| > 1
    ensures |nodes| >= 2 && nodes[0] == Cmd(StageCommand(line.stages[0], false)) && nodes[1] == Pipe
    ensures Ahead(whole, codes, nodes[2..], Line(line.stages[1..], line.rest), true, cwd,
                  started + [StageSpawn(line.stages[0], piped, cwd, |started|, false)])
  {
    hide LineNodes, Spawns, ExitCode;
    StepPipeCode(line, |started|, codes);
    StepPipeNodes(line);
    StepPipeSpawns(line, piped, cwd, |started|, codes);
    var next, spawn := Line(line.stages[1..], line.rest), StageSpawn(line.stages[0], piped, cwd, |started|, false);
    assert spawn.stdout.PipeOut?;
    hide *;
    assert nodes[2..] == LineNodes(next);
    Assoc(started, [spawn], Spawns(next, true, cwd, |started| + 1, codes));
  }

  lemma AheadLast(whole: Line, codes: int -> int, nodes: seq<Node>, line: Line, piped: bool, cwd: string,
                  started: seq<Spawn>)
    requires Ahead(whole, codes, nodes, line, piped, cwd, started) && line.stages[0].dirs == [] && |line.stages| == 1
    ensures nodes != [] && nodes[0] == Cmd(StageCommand(line.stages[0], true)) && nodes[1..] == RestNodes(line.rest)
    ensures var spawn, code := StageSpawn(line.stages[0], piped, cwd, |started|, true), codes(|started|);
      if Stops(line.rest, code)
      then ExitCode(whole, 0, codes) == code && Spawns(whole, false, ".", 0, codes) == started + [spawn]
      else |nodes| >= 2 && Ahead(whole, codes, nodes[2..], line.rest.next, false, cwd, started + [spawn])
  {
    hide *;
    var n, code := |started|, codes(|started|);
    var spawn, more := StageSpawn(line.stages[0], piped, cwd, n, true), RestSpawns(line.rest, code, cwd, n + 1, codes);
    AheadIs(whole, codes, nodes, line, piped, cwd, started);
    StepLast(line, piped, cwd, n, codes);
    RestParts(line, code, cwd, n + 1, codes);
    assert nodes[1..] == RestNodes(line.rest);
    if Stops(line.rest, code) {
      assert [spawn] + more == [spawn];
    } else {
      assert nodes[2..] == nodes[1..][1..];
      Assoc(started, [spawn], more);
      AheadIs(whole, codes, nodes[2..], line.rest.next, false, cwd, started + [spawn]);
    }
  }

  lemma AheadIs(whole: Line, codes: int -> int, nodes: seq<Node>, line: Line, piped: bool, cwd: string,
                started: seq<Spawn>)
    ensures Ahead(whole, codes, nodes, line, piped, cwd, started) <==>
      && GoodLine(line) && nodes == LineNodes(line)
      && ExitCode(whole, 0, codes) == ExitCode(line, |started|, codes)
      && Spawns(whole, false, ".", 0, codes) == started + Spawns(line, piped, cwd, |started|, codes)
      && (piped ==> started != [] && started[|started| - 1].stdout.PipeOut?)
  {
    hide GoodLine, LineNodes, ExitCode, Spawns;
  }

  /** What follows the pipe of a line. */
  lemma RestParts(line: Line, code: int, cwd: string, n: nat, codes: int -> int)
    requires GoodLine(line)
    ensures Stops(line.rest, code) ==> RestSpawns(line.rest, code, cwd, n, codes) == []
    ensures !Stops(line.rest, code) ==>
      && !line.rest.End? && GoodLine(line.rest.next)
      && RestNodes(line.rest) != [] && RestNodes(line.rest)[1..] == LineNodes(line.rest.next)
      && RestSpawns(line.rest, code, cwd, n, codes) == Spawns(line.rest.next, false, cwd, n, codes)
  {
    hide LineNodes, Spawns;
  }

  lemma AheadNotEmpty(whole: Line, codes: int -> int, nodes: seq<Node>, line: Line, piped: bool, cwd: string,
                      started: seq<Spawn>)
    requires Ahead(whole, codes, nodes, line, piped, cwd, started)
    ensures nodes != []
  {
    StagesLast(line.stages);
    NodeParts(line);
  }

  /** The process that the run starts for a command. */
  function CommandSpawn(cmd: Command, piped: bool, cwd: string, started: seq<Spawn>): Spawn {
    Spawn(cmd.argv, cmd.env, cwd,
          if piped && started != [] then
            (if started[|started| - 1].stdout.PipeOut? then FromPipe(|started| - 1) else Inherited)
          else if cmd.stdin.Some? then FromFile(cmd.stdin.value) else Inherited,
          cmd.stdout, cmd.stderr)
  }

  lemma AheadHead(whole: Line, codes: int -> int, nodes: seq<Node>, line: Line, piped: bool, cwd: string,
                  started: seq<Spawn>)
    requires Ahead(whole, codes, nodes, line, piped, cwd, started)
    ensures nodes != [] && line.stages != []
    ensures if line.stages[0].dirs != [] then nodes[0].Chdir? else nodes[0].Cmd?
  {
    assert GoodLine(line);
    if line.stages[0].dirs != [] {
      AheadChdir(whole, codes, nodes, line, piped, cwd, started);
    } else if |line.stages| > 1 {
      AheadPipe(whole, codes, nodes, line, piped, cwd, started);
    } else {
      AheadLast(whole, codes, nodes, line, piped, cwd, started);
    }
  }

  /** A directory change is followed by `&&` and the run goes on in the new directory. */
  lemma AheadChdirNode(whole: Line, codes: int -> int, nodes: seq<Node>, line: Line, piped: bool, cwd: string,
                                          started: seq<Spawn>) returns (line': Line)
    requires Ahead(whole, codes, nodes, line, piped, cwd, started) && nodes != [] && nodes[0].Chdir?
    ensures |nodes| >= 2 && nodes[0].dir.Some? && nodes[1].And?
    ensures Ahead(whole, codes, nodes[2..], line', piped, Join(cwd, nodes[0].dir.value), started)
  {
    AheadHead(whole, codes, nodes, line, piped, cwd, started);
    AheadChdir(whole, codes, nodes, line, piped, cwd, started);
    line' := WithoutDir(line);
  }

  /** A command is started; a pipe goes on, and at its end the exit code decides whether the run does. */
  lemma AheadCommandNode(whole: Line, codes: int -> int, nodes: seq<Node>, line: Line, piped: bool, cwd: string,
                                            started: seq<Spawn>) returns (line': Line)
    requires Ahead(whole, codes, nodes, line, piped, cwd, started) && nodes != [] && !nodes[0].Chdir?
    ensures nodes[0].Cmd? && (|nodes| > 1 ==> nodes[1].IsOperator())
    ensures var after, code := started + [CommandSpawn(nodes[0].cmd, piped, cwd, started)], codes(|started|);
      if |nodes| == 1 || (!nodes[1].Pipe? && nodes[1].And? == (code != 0))
      then ExitCode(whole, 0, codes) == code && Spawns(whole, false, ".", 0, codes) == after
      else Ahead(whole, codes, nodes[2..], line', nodes[1].Pipe?, cwd, after)
  {
    AheadHead(whole, codes, nodes, line, piped, cwd, started);
    if |line.stages| > 1 {
      AheadPipe(whole, codes, nodes, line, piped, cwd, started);
      line' := Line(line.stages[1..], line.rest);
      assert StageSpawn(line.stages[0], piped, cwd, |started|, false) ==
        CommandSpawn(nodes[0].cmd, piped, cwd, started);
    } else {
      AheadLast(whole, codes, nodes, line, piped, cwd, started);
      line' := if line.rest.End? then line else line.rest.next;
      RestHead(nodes, line.rest);
      assert StageSpawn(line.stages[0], piped, cwd, |started|, true) == CommandSpawn(nodes[0].cmd, piped, cwd, started);
    }
  }

  lemma RestHead(nodes: seq<Node>, rest: Rest)
    requires nodes != [] && nodes[1..] == RestNodes(rest)
    ensures |nodes| == 1 <==> rest.End?
    ensures |nodes| > 1 ==> nodes[1] == (if rest.AndThen? then And else Or)
  {
    hide LineNodes;
    if |nodes| > 1 { assert nodes[1] == nodes[1..][0]; }
  }

  /** How the loop goes through a list: result and processes. `codes` gives the exit code of each process by its
      number. */
  function Interpret(nodes: seq<Node>, piped: bool, cwd: string, started: seq<Spawn>, codes: int -> int)
    : (RunResult, seq<Spawn>)
    decreases |nodes|
  {
    if nodes == [] then (FellThrough, started)
    else if nodes[0].Chdir? then
      if IncompleteAt(nodes, 0) then (Raised, started)
      else Interpret(nodes[2..], piped, Join(cwd, nodes[0].dir.value), started, codes)
    else if !nodes[0].Cmd? then (Raised, started)
    else
      var after, code := started + [CommandSpawn(nodes[0].cmd, piped, cwd, started)], codes(|started|);
      if |nodes| == 1 then (Exit(code), after)
      else if !nodes[1].And? && !nodes[1].Or? then Interpret(nodes[2..], piped || nodes[1].Pipe?, cwd, after, codes)
      else if nodes[1].And? == (code != 0) then (Exit(code), after)
      else Interpret(nodes[2..], false, cwd, after, codes)
  }

  /** A directory change that names no directory or is not followed by `&&`. */
  predicate IncompleteAt(nodes: seq<Node>, i: nat) {
    i < |nodes| && nodes[i].Chdir? && (nodes[i].dir.None? || i + 1 == |nodes| || !nodes[i + 1].And?)
  }

  /** For the list of a tree the result is the tree's exit code and the processes started are the tree's. */
  lemma {:induction false} InterpretTree(whole: Line, codes: int -> int, nodes: seq<Node>, line: Line, piped: bool,
                                         cwd: string, started: seq<Spawn>)
    requires Ahead(whole, codes, nodes, line, piped, cwd, started)
    ensures Interpret(nodes, piped, cwd, started, codes) ==
      (Exit(ExitCode(whole, 0, codes)), Spawns(whole, false, ".", 0, codes))
    decreases |nodes|
  {
    hide Ahead, ExitCode, Spawns, CommandSpawn, Join;
    AheadNotEmpty(whole, codes, nodes, line, piped, cwd, started);
    if nodes[0].Chdir? {
      var line' := AheadChdirNode(whole, codes, nodes, line, piped, cwd, started);
      InterpretTree(whole, codes, nodes[2..], line', piped, Join(cwd, nodes[0].dir.value), started);
    } else {
      var line' := AheadCommandNode(whole, codes, nodes, line, piped, cwd, started);
      var after, code := started + [CommandSpawn(nodes[0].cmd, piped, cwd, started)], codes(|started|);
      if !(|nodes| == 1 || (!nodes[1].Pipe? && nodes[1].And? == (code != 0))) {
        InterpretPiped(nodes, piped, cwd, started, codes);
        InterpretTree(whole, codes, nodes[2..], line', nodes[1].Pipe?, cwd, after);
      }
    }
  }

  lemma InterpretPiped(nodes: seq<Node>, piped: bool, cwd: string, started: seq<Spawn>, codes: int -> int)
    requires |nodes| > 1 && nodes[0].Cmd? && nodes[1].IsOperator()
    ensures var after, code := started + [CommandSpawn(nodes[0].cmd, piped, cwd, started)], codes(|started|);
      Interpret(nodes, piped, cwd, started, codes) ==
        if !nodes[1].Pipe? && nodes[1].And? == (code != 0) then (Exit(code), after)
        else Interpret(nodes[2..], nodes[1].Pipe?, cwd, after, codes)
  {
    hide CommandSpawn;
  }

  /** The whole tree is ahead at the start. */
  lemma TreeAhead(whole: Line, codes: int -> int)
    requires GoodLine(whole)
    ensures Ahead(whole, codes, LineNodes(whole), whole, false, ".", [])
  {
    hide Spawns, ExitCode, LineNodes;
    assert [] + Spawns(whole, false, ".", 0, codes) == Spawns(whole, false, ".", 0, codes);
  }

  /** The interpreter loop. It goes through the list as specified, and a run that returns a code has waited for each
      process once and closed each file once. */
  method Run(nodes: seq<Node>, codes: int -> int)
    returns (r: RunResult, started: seq<Spawn>, waited: seq<nat>, handles: seq<Handle>, closed: seq<nat>)
    ensures (r, started) == Interpret(nodes, false, ".", [], codes)
    ensures Files(handles) == OpenedForAll(started)
    ensures r.Exit? ==> waited == Count(|started|) && closed == Closable(handles) && Numbered(handles)
  {
    hide Join, Closable, Count, Numbered, CommandSpawn, OpenedFor, OpenedForAll;
    ghost var batches: seq<Handle> := [];
    started, waited, handles, closed := [], [], [], [];
    var rest, piped, cwd, first := nodes, false, ".", 0;
    var files: seq<Handle> := [];
    BooksStart();
    hide Books;
    while rest != []
      invariant Interpret(rest, piped, cwd, started, codes) == Interpret(nodes, false, ".", [], codes)
      invariant 0 <= first <= |started| && Books(batches, files, handles, closed, first, waited)
      invariant Files(handles) == OpenedForAll(started)
      invariant piped ==> started != []
      decreases |rest|
    {
      PopTwo(rest);
      var node := rest[0];
      rest := rest[1..];
      if node.Chdir? {
        if rest == [] || !rest[0].And? || node.dir.None? {
          return Raised, started, waited, handles, closed;
        }
        rest := rest[1..];
        cwd := Join(cwd, node.dir.value);
        continue;
      }
      if !node.Cmd? {
        return Raised, started, waited, handles, closed;
      }
      var spawn;
      spawn, files, handles := Start(node.cmd, piped, cwd, started, files, handles, batches, closed, first, waited);
      OpenedForOneMore(started, spawn);
      started := started + [spawn];
      if rest == [] {
        var retval;
        retval, waited, closed := FinishPipe(first, |started|, codes, waited, files, closed, batches, handles);
        return Exit(retval), started, waited, handles, closed;
      }
      var next := rest[0];
      rest := rest[1..];
      if next.Pipe? {
        piped := true;
      } else if next.Or? || next.And? {
        var retval;
        retval, waited, closed := FinishPipe(first, |started|, codes, waited, files, closed, batches, handles);
        if next.And? == (retval != 0) {
          return Exit(retval), started, waited, handles, closed;
        }
        piped, first, files, batches := false, |started|, [], handles;
      }
    }
    r := FellThrough;
  }

  lemma BooksStart()
    ensures Books([], [], [], [], 0, []) && Files([]) == OpenedForAll([])
  {
  }

  lemma PopTwo(nodes: seq<Node>)
    requires nodes != []
    ensures |nodes| > 1 ==> nodes[1..][0] == nodes[1] && nodes[1..][1..] == nodes[2..]
  {
  }

  /** The files closed are the opened ones except the null device, each once, in the order of opening. */
  lemma {:induction false} ClosedOnce(handles: seq<Handle>, id: nat)
    requires Numbered(handles)
    ensures multiset(Closable(handles))[id] == if id < |handles| && !handles[id].isDevNull then 1 else 0
  {
    if handles != [] {
      var front := handles[..|handles| - 1];
      ClosedOnce(front, id);
      assert id < |front| ==> front[id] == handles[id];
    }
  }

  // ---------------------------------------------------------------- parse, then run

  /** Every `cd` names a directory and is followed by `&&`. */
  predicate ChdirsComplete(nodes: seq<Node>) {
    forall i :: 0 <= i < |nodes| && nodes[i].Chdir? ==> nodes[i].dir.Some? && i + 1 < |nodes| && nodes[i + 1].And?
  }

  lemma {:induction false} EnvListOf(env: map<string, string>) returns (list: seq<(string, string)>)
    ensures EnvMap(list) == env
    decreases |env|
  {
    if env == map[] {
      list := [];
    } else {
      var key :| key in env;
      var smaller := env - {key};
      assert smaller.Keys == env.Keys - {key};
      var front := EnvListOf(smaller);
      list := front + [(key, env[key])];
      assert list[..|list| - 1] == front;
      assert smaller[key := env[key]] == env;
    }
  }

  lemma StageOf(cmd: Command, last: bool) returns (stage: Stage)
    requires cmd.argv != [] && (last <==> !cmd.stdout.PipeOut?)
    ensures stage.dirs == [] && OncePerStream(stage.words) && StageCommand(stage, last) == cmd
    ensures !last ==> Output(stage.words).None?
  {
    hide Arguments, Input, Output, Errors, EnvMap, OncePerStream;
    var env := EnvListOf(cmd.env);
    var words := WordsOf(cmd);
    stage := Stage([], env, cmd.argv[0], words);
    assert [cmd.argv[0]] + cmd.argv[1..] == cmd.argv;
  }

  lemma WordsOf(cmd: Command) returns (words: seq<Word>)
    requires cmd.argv != []
    ensures OncePerStream(words) && Arguments(words) == cmd.argv[1..] && Input(words) == cmd.stdin
    ensures Output(words) == (if cmd.stdout.OutFile? then Some(cmd.stdout.name) else None)
    ensures Errors(words) == cmd.stderr
  {
    hide *;
    PlainlyRead(cmd.argv[1..]);
    words := Plainly(cmd.argv[1..]);
    if cmd.stdin.Some? {
      OneRedirect(words, ReadFrom(cmd.stdin.value));
      words := words + [ReadFrom(cmd.stdin.value)];
    }
    if cmd.stdout.OutFile? {
      OneRedirect(words, WriteTo(cmd.stdout.name));
      words := words + [WriteTo(cmd.stdout.name)];
    }
    if !cmd.stderr.NoErr? {
      var errors := if cmd.stderr.ErrFile? then ErrorsTo(cmd.stderr.name) else ErrorsToOutput;
      OneRedirect(words, errors);
      words := words + [errors];
    }
  }

  function Plainly(arguments: seq<string>): seq<Word> {
    if arguments == [] then [] else Plainly(arguments[..|arguments| - 1]) + [Argument(arguments[|arguments| - 1])]
  }

  lemma {:induction false} PlainlyRead(arguments: seq<string>)
    ensures var words := Plainly(arguments);
      && Arguments(words) == arguments && Input(words) == None && Output(words) == None && Errors(words) == NoErr
      && OncePerStream(words)
  {
    if arguments != [] {
      var front := arguments[..|arguments| - 1];
      PlainlyRead(front);
      OnePlain(Plainly(front), arguments[|arguments| - 1]);
      hide Arguments, Input, Output, Errors, OncePerStream;
    }
  }

  lemma OnePlain(words: seq<Word>, text: string)
    requires OncePerStream(words)
    ensures var more := words + [Argument(text)];
      && OncePerStream(more) && Arguments(more) == Arguments(words) + [text]
      && Input(more) == Input(words) && Output(more) == Output(words) && Errors(more) == Errors(words)
  {
    assert (words + [Argument(text)])[..|words|] == words;
    OnceMore(words + [Argument(text)]);
    hide OncePerStream;
  }

  lemma OneRedirect(words: seq<Word>, word: Word)
    requires OncePerStream(words) && !word.Argument?
    requires word.ReadFrom? ==> Input(words) == None
    requires word.WriteTo? ==> Output(words) == None
    requires word.ErrorsTo? || word.ErrorsToOutput? ==> Errors(words) == NoErr
    ensures var more := words + [word];
      && OncePerStream(more) && Arguments(more) == Arguments(words)
      && Input(more) == (if word.ReadFrom? then Some(word.file) else Input(words))
      && Output(more) == (if word.WriteTo? then Some(word.file) else Output(words))
      && Errors(more) ==
         (if word.ErrorsTo? then ErrFile(word.file) else if word.ErrorsToOutput? then ErrToOut else Errors(words))
  {
    assert (words + [word])[..|words|] == words;
    OnceMore(words + [word]);
  }

  /** Every well-formed node list whose directory changes are complete stands for a tree. */
  lemma {:induction false} TreeOf(nodes: seq<Node>) returns (line: Line)
    requires WellFormed(nodes) && ChdirsComplete(nodes)
    ensures GoodLine(line) && LineNodes(line) == nodes
    decreases |nodes|
  {
    if |nodes| == 1 {
      assert !nodes[0].Chdir?;
      var stage := StageOf(nodes[0].cmd, true);
      line := Line([stage], End);
      StepLast(line, false, "", 0, (n: int) => 0);
    } else {
      var rest := nodes[2..];
      assert forall i :: 0 <= i < |rest| ==> rest[i] == nodes[i + 2];
      assert ChdirsComplete(rest);
      var line' := TreeOf(rest);
      assert nodes == [nodes[0], nodes[1]] + rest;
      if nodes[0].Chdir? {
        line := WithDir(line', nodes[0].dir.value);
      } else if nodes[1].Pipe? {
        var stage := StageOf(nodes[0].cmd, false);
        line := WithStage(line', stage);
      } else {
        var stage := StageOf(nodes[0].cmd, true);
        line := Line([stage], if nodes[1].And? then AndThen(line') else OrElse(line'));
        StepLast(line, false, "", 0, (n: int) => 0);
        hide LineNodes;
        Assoc([nodes[0]], [nodes[1]], rest);
      }
    }
  }

  lemma WithDir(line: Line, dir: string) returns (line': Line)
    requires GoodLine(line)
    ensures GoodLine(line') && LineNodes(line') == [Chdir(Some(dir)), And] + LineNodes(line)
  {
    var stage := line.stages[0];
    line' := Line([stage.(dirs := [dir] + stage.dirs)] + line.stages[1..], line.rest);
    assert forall k :: 1 <= k < |line'.stages| ==> line'.stages[k] == line.stages[k];
    assert ([dir] + stage.dirs)[1..] == stage.dirs;
    assert WithoutDir(line').stages == line.stages;
    StepChdir(line', false, "", 0, (n: int) => 0);
  }

  lemma WithStage(line: Line, stage: Stage) returns (line': Line)
    requires GoodLine(line) && stage.dirs == [] && OncePerStream(stage.words) && Output(stage.words).None?
    ensures GoodLine(line') && LineNodes(line') == [Cmd(StageCommand(stage, false)), Pipe] + LineNodes(line)
  {
    line' := Line([stage] + line.stages, line.rest);
    assert line'.stages[1..] == line.stages;
    assert forall k :: 1 <= k < |line'.stages| ==> line'.stages[k] == line.stages[k - 1];
    StepPipeNodes(line');
  }

  // ---------------------------------------------------------------- incomplete directory changes

  function Commands(nodes: seq<Node>): nat {
    if nodes == [] then 0 else Commands(nodes[..|nodes| - 1]) + if nodes[|nodes| - 1].Cmd? then 1 else 0
  }

  lemma {:induction false} CommandsCons(nodes: seq<Node>)
    requires nodes != []
    ensures Commands(nodes) == (if nodes[0].Cmd? then 1 else 0) + Commands(nodes[1..])
  {
    if |nodes| > 1 {
      CommandsCons(nodes[..|nodes| - 1]);
      assert nodes[..|nodes| - 1][1..] == nodes[1..][..|nodes| - 2];
    } else {
      assert nodes[..0] == [] && nodes[1..] == [];
    }
  }

  /** A command in the place of an incomplete directory change. */
  const PROBE: Node := Cmd(Command([""], None, NoOut, NoErr, map[]))

  /** The first incomplete directory change, or the length of the list. */
  function FirstIncomplete(nodes: seq<Node>): (k: nat)
    ensures k <= |nodes| && (k < |nodes| ==> IncompleteAt(nodes, k))
    decreases |nodes|
  {
    if nodes == [] || IncompleteAt(nodes, 0) then 0
    else if |nodes| == 1 then 1
    else 2 + FirstIncomplete(nodes[2..])
  }

  /** The part in front of it, closed with a command, is well formed and complete. */
  lemma {:induction false} FrontComplete(nodes: seq<Node>)
    requires WellFormed(nodes)
    ensures var k := FirstIncomplete(nodes);
      if k < |nodes| then WellFormedPrefix(nodes[..k]) && ChdirsComplete(nodes[..k]) else ChdirsComplete(nodes)
    decreases |nodes|
  {
    if |nodes| > 1 && !IncompleteAt(nodes, 0) {
      var rest, k := nodes[2..], FirstIncomplete(nodes);
      FrontComplete(rest);
      if k < |nodes| {
        FrontCons(nodes[0], nodes[1], rest[..k - 2]);
        assert nodes[..k] == [nodes[0], nodes[1]] + rest[..k - 2];
      } else {
        assert nodes == [nodes[0], nodes[1]] + rest;
        CompleteCons(nodes[0], nodes[1], rest);
      }
    }
  }

  lemma CompleteCons(node: Node, op: Node, rest: seq<Node>)
    requires ChdirsComplete(rest) && FitsNext(node, op) && (node.Chdir? ==> node.dir.Some?)
    ensures ChdirsComplete([node, op] + rest)
  {
    var nodes := [node, op] + rest;
    forall i | 0 <= i < |nodes| && nodes[i].Chdir? ensures nodes[i].dir.Some? && i + 1 < |nodes| && nodes[i + 1].And? {
      if i >= 2 { assert rest[i - 2] == nodes[i] && (i + 1 < |nodes| ==> rest[i - 1] == nodes[i + 1]); }
    }
  }

  lemma FrontCons(node: Node, op: Node, front: seq<Node>)
    requires WellFormedPrefix(front) && ChdirsComplete(front) && HasProgram(node) && FitsNext(node, op)
    requires node.Chdir? ==> node.dir.Some?
    ensures WellFormedPrefix([node, op] + front) && ChdirsComplete([node, op] + front)
  {
    assert ([node, op] + front)[2..] == front;
    CompleteCons(node, op, front);
  }

  lemma ProbeComplete(front: seq<Node>)
    requires WellFormedPrefix(front) && ChdirsComplete(front)
    ensures WellFormed(front + [PROBE]) && ChdirsComplete(front + [PROBE])
  {
    PrefixFinish(front, PROBE);
  }

  /** Running a list up to an incomplete directory change, and running it with a command there: either the command is
      not reached, and both end alike, or it is the last process started, and the other run raises. */
  lemma {:induction false} UpToIncomplete(front: seq<Node>, tail: seq<Node>, piped: bool, cwd: string,
                                          started: seq<Spawn>, codes: int -> int)
    requires WellFormedPrefix(front) && ChdirsComplete(front) && IncompleteAt(tail, 0)
    ensures var probed, broken :=
      Interpret(front + [PROBE], piped, cwd, started, codes), Interpret(front + tail, piped, cwd, started, codes);
      if |probed.1| == |started| + Commands(front) + 1
      then broken.0.Raised? && |probed.1| > 0 && broken.1 == probed.1[..|probed.1| - 1]
      else broken == probed && broken.0.Exit?
    ensures |started| <= |Interpret(front + [PROBE], piped, cwd, started, codes).1|
    decreases |front|
  {
    if front == [] {
      assert front + [PROBE] == [PROBE] && front + tail == tail;
      hide CommandSpawn, Join;
    } else {
      UpToIncompleteStep(front, tail, piped, cwd, started, codes);
    }
  }

  lemma {:induction false} UpToIncompleteStep(front: seq<Node>, tail: seq<Node>, piped: bool, cwd: string,
                                              started: seq<Spawn>, codes: int -> int)
    requires WellFormedPrefix(front) && ChdirsComplete(front) && IncompleteAt(tail, 0) && front != []
    ensures var probed := Interpret(front + [PROBE], piped, cwd, started, codes);
      var broken := Interpret(front + tail, piped, cwd, started, codes);
      && |started| <= |probed.1|
      && if |probed.1| == |started| + Commands(front) + 1
         then broken.0.Raised? && |probed.1| > 0 && broken.1 == probed.1[..|probed.1| - 1]
         else broken == probed && broken.0.Exit?
    decreases |front|, 0
  {
    hide CommandSpawn, Join, Commands, ChdirsComplete, WellFormedPrefix;
    FrontParts(front);
    var rest, one := front[2..], [PROBE];
    FrontJoin(front, one);
    FrontJoin(front, tail);
    if front[0].Chdir? {
      UpToIncomplete(rest, tail, piped, Join(cwd, front[0].dir.value), started, codes);
    } else {
      InterpretPiped(front + one, piped, cwd, started, codes);
      InterpretPiped(front + tail, piped, cwd, started, codes);
      var after := started + [CommandSpawn(front[0].cmd, piped, cwd, started)];
      UpToIncomplete(rest, tail, front[1].Pipe?, cwd, after, codes);
    }
  }

  lemma FrontParts(front: seq<Node>)
    requires WellFormedPrefix(front) && ChdirsComplete(front) && front != []
    ensures |front| >= 2 && (front[0].Cmd? || front[0].Chdir?) && front[1].IsOperator()
    ensures WellFormedPrefix(front[2..]) && ChdirsComplete(front[2..])
    ensures front[0].Chdir? ==> front[0].dir.Some? && front[1].And?
    ensures Commands(front) == (if front[0].Cmd? then 1 else 0) + Commands(front[2..])
  {
    CommandsFront(front);
    RestComplete(front);
    if front[0].Chdir? { CompleteFirst(front); }
    hide Commands, ChdirsComplete;
  }

  lemma FrontJoin(front: seq<Node>, more: seq<Node>)
    requires |front| >= 2 && (front[0].Chdir? ==> front[0].dir.Some? && front[1].And?)
    ensures var all := front + more;
      |all| >= 2 && all[0] == front[0] && all[1] == front[1] && all[2..] == front[2..] + more && !IncompleteAt(all, 0)
  {
  }

  lemma CommandsFront(front: seq<Node>)
    requires |front| >= 2 && front[1].IsOperator()
    ensures Commands(front) == (if front[0].Cmd? then 1 else 0) + Commands(front[2..])
  {
    CommandsCons(front);
    CommandsCons(front[1..]);
    assert front[1..][1..] == front[2..];
  }

  lemma RestComplete(front: seq<Node>)
    requires |front| >= 2 && ChdirsComplete(front)
    ensures ChdirsComplete(front[2..])
  {
    var rest := front[2..];
    forall i | 0 <= i < |rest| && rest[i].Chdir? ensures rest[i].dir.Some? && i + 1 < |rest| && rest[i + 1].And? {
      assert front[i + 2] == rest[i];
    }
  }

  lemma CompleteFirst(front: seq<Node>)
    requires front != [] && ChdirsComplete(front) && front[0].Chdir?
    ensures |front| > 1 && front[0].dir.Some? && front[1].And?
  {
  }

  /** The tree of an accepted list: of the list itself when its directory changes are complete, otherwise of the part in
      front of the first incomplete one with a command in its place. */
  lemma AcceptedTree(nodes: seq<Node>) returns (line: Line)
    requires WellFormed(nodes)
    ensures var k := FirstIncomplete(nodes);
      GoodLine(line) && LineNodes(line) == if k < |nodes| then nodes[..k] + [PROBE] else nodes
  {
    FrontComplete(nodes);
    var k := FirstIncomplete(nodes);
    if k < |nodes| {
      ProbeComplete(nodes[..k]);
      line := TreeOf(nodes[..k] + [PROBE]);
    } else {
      line := TreeOf(nodes);
    }
  }

  lemma TailIncomplete(nodes: seq<Node>, k: nat)
    requires IncompleteAt(nodes, k)
    ensures IncompleteAt(nodes[k..], 0)
  {
  }

  /** What a run of an accepted list comes to, in terms of its tree. With complete directory changes it ends with the
      exit code of the tree. Otherwise it raises exactly when the tree starts all its processes, the last of them at
      the incomplete directory change, and ends with the exit code of the tree when it does not come so far. */
  lemma AcceptedRun(nodes: seq<Node>, line: Line, codes: int -> int)
    requires WellFormed(nodes) && GoodLine(line)
    requires var k := FirstIncomplete(nodes); LineNodes(line) == if k < |nodes| then nodes[..k] + [PROBE] else nodes
    ensures var k, run, spawns :=
      FirstIncomplete(nodes), Interpret(nodes, false, ".", [], codes), Spawns(line, false, ".", 0, codes);
      if k < |nodes| && |spawns| == Commands(nodes[..k]) + 1
      then run.0.Raised? && run.1 == spawns[..|spawns| - 1]
      else run == (Exit(ExitCode(line, 0, codes)), spawns)
  {
    hide *;
    var k := FirstIncomplete(nodes);
    TreeAhead(line, codes);
    InterpretTree(line, codes, LineNodes(line), line, false, ".", []);
    if k < |nodes| {
      FrontComplete(nodes);
      TailIncomplete(nodes, k);
      assert nodes[..k] + nodes[k..] == nodes;
      UpToIncomplete(nodes[..k], nodes[k..], false, ".", [], codes);
    }
  }

  /** Parse and run, for every list of tokens that parse accepts; every process and file of a run that returns a code is
      dealt with once. */
  method ParseAndRun(tokens: seq<string>, codes: int -> int)
    returns (p: Result<seq<Node>>, r: RunResult, started: seq<Spawn>, waited: seq<nat>, handles: seq<Handle>,
             closed: seq<nat>, ghost line: Line)
    ensures p == Parsed(tokens)
    ensures p.Ok? ==>
      var k, spawns := FirstIncomplete(p.value), Spawns(line, false, ".", 0, codes);
      && GoodLine(line) && LineNodes(line) == (if k < |p.value| then p.value[..k] + [PROBE] else p.value)
      && if k < |p.value| && |spawns| == Commands(p.value[..k]) + 1
         then r == Raised && started == spawns[..|spawns| - 1]
         else r == Exit(ExitCode(line, 0, codes)) && started == spawns
    ensures Files(handles) == OpenedForAll(started)
    ensures r.Exit? ==> waited == Count(|started|) && closed == Closable(handles) && Numbered(handles)
  {
    hide *;
    r, started, waited, handles, closed := Raised, [], [], [], [];
    BooksStart();
    line := Line([], End);
    p := Parse(tokens);
    if p.Ok? {
      line := AcceptedTree(p.value);
      AcceptedRun(p.value, line, codes);
      r, started, waited, handles, closed := Run(p.value, codes);
    }
  }

  // ---------------------------------------------------------------- lists as the standard reads them

  /** Is the pipe behind the operator run, given the status in front of it? */
  predicate Goes(op: Node, status: int) { op.And? == (status == 0) }

  /** A redirection of its own overrides the pipe (section 2.9.2 of the Shell Command Language of POSIX.1-2017). */
  function StandardSpawn(cmd: Command, piped: bool, cwd: string, started: seq<Spawn>): Spawn {
    CommandSpawn(cmd, piped && cmd.stdin.None?, cwd, started)
  }

  /** The list read from the left (section 2.9.3): `take` says whether the pipe is run; one that is passed over hands
      the status on. A directory change has status 0, and inside a pipe it changes the directory for itself only. */
  function Standard(nodes: seq<Node>, take: bool, status: int, piped: bool, cwd: string, started: seq<Spawn>,
                    codes: int -> int): (int, seq<Spawn>)
    decreases |nodes|
  {
    if nodes == [] then (status, started)
    else if nodes[0].Cmd? then
      var after := if take then started + [StandardSpawn(nodes[0].cmd, piped, cwd, started)] else started;
      var status' := if take then codes(|started|) else status;
      if |nodes| == 1 then (status', after)
      else if nodes[1].Pipe? then Standard(nodes[2..], take, status, true, cwd, after, codes)
      else Standard(nodes[2..], Goes(nodes[1], status'), status', false, cwd, after, codes)
    else
      var status' := if take then 0 else status;
      var goes := take && !piped && nodes[0].Chdir? && nodes[0].dir.Some?;
      var cwd' := if goes then Join(cwd, nodes[0].dir.value) else cwd;
      if |nodes| == 1 then (status', started)
      else Standard(nodes[2..], Goes(nodes[1], status'), status', false, cwd', started, codes)
  }

  /** The run goes as the standard asks: it comes past no directory change inside a pipe and no redirected input behind
      one, and no operator of the other kind stands behind the one at which it ends. `n` processes have been started. */
  predicate RunsAlike(nodes: seq<Node>, piped: bool, n: nat, codes: int -> int)
    decreases |nodes|
  {
    if nodes == [] then true
    else if !nodes[0].Cmd? then !piped && (|nodes| == 1 || RunsAlike(nodes[2..], false, n, codes))
    else
      && !(piped && nodes[0].cmd.stdin.Some?)
      && (|nodes| == 1 ||
          if nodes[1].Pipe? then RunsAlike(nodes[2..], true, n + 1, codes)
          else if Goes(nodes[1], codes(n)) then RunsAlike(nodes[2..], false, n + 1, codes)
          else (if nodes[1].And? then Or else And) !in nodes[2..])
  }

  /** A list that can be run: well formed, with complete directory changes. */
  predicate Runnable(nodes: seq<Node>) { WellFormed(nodes) && ChdirsComplete(nodes) }

  lemma RunnableParts(nodes: seq<Node>)
    requires Runnable(nodes)
    ensures nodes != [] && (nodes[0].Cmd? || (nodes[0].Chdir? && |nodes| > 1 && nodes[0].dir.Some? && nodes[1].And?))
    ensures nodes[0].Cmd? && |nodes| > 1 ==> nodes[1].IsOperator() && (nodes[1].Pipe? <==> nodes[0].cmd.stdout.PipeOut?)
    ensures |nodes| > 1 ==> Runnable(nodes[2..])
    ensures |nodes| > 1 ==> forall op: Node :: op.IsOperator() ==> (op in nodes <==> op == nodes[1] || op in nodes[2..])
  {
    if |nodes| > 1 {
      RestComplete(nodes);
      assert nodes == [nodes[0], nodes[1]] + nodes[2..];
    }
  }

  lemma StandardKeeps(nodes: seq<Node>, take: bool, status: int, piped: bool, cwd: string, started: seq<Spawn>,
                      codes: int -> int)
    ensures started <= Standard(nodes, take, status, piped, cwd, started, codes).1
    decreases |nodes|
  {
  }

  lemma InterpretKeeps(nodes: seq<Node>, piped: bool, cwd: string, started: seq<Spawn>, codes: int -> int)
    ensures started <= Interpret(nodes, piped, cwd, started, codes).1
    decreases |nodes|
  {
  }

  /** A list that is run starts a process; unless it stands behind a pipe, the first one does not read from a pipe. */
  lemma {:induction false} StandardStarts(nodes: seq<Node>, status: int, piped: bool, cwd: string, started: seq<Spawn>,
                                          codes: int -> int)
    requires Runnable(nodes)
    ensures var spawns := Standard(nodes, true, status, piped, cwd, started, codes).1;
      |spawns| > |started| && (!piped ==> !spawns[|started|].stdin.FromPipe?)
    decreases |nodes|
  {
    RunnableParts(nodes);
    hide Join, Runnable;
    if nodes[0].Cmd? {
      var after := started + [StandardSpawn(nodes[0].cmd, piped, cwd, started)];
      if |nodes| > 1 {
        var code := codes(|started|);
        StandardKeeps(nodes[2..], true, status, true, cwd, after, codes);
        StandardKeeps(nodes[2..], Goes(nodes[1], code), code, false, cwd, after, codes);
      }
    } else {
      var cwd' := if piped then cwd else Join(cwd, nodes[0].dir.value);
      StandardStarts(nodes[2..], 0, false, cwd', started, codes);
    }
  }

  /** Behind a pipe the first process that the run starts reads from the pipe. */
  lemma {:induction false} InterpretPipes(nodes: seq<Node>, cwd: string, started: seq<Spawn>, codes: int -> int)
    requires Runnable(nodes) && started != [] && started[|started| - 1].stdout.PipeOut?
    ensures var spawns := Interpret(nodes, true, cwd, started, codes).1;
      |spawns| > |started| && spawns[|started|].stdin.FromPipe?
    decreases |nodes|
  {
    RunnableParts(nodes);
    hide Join, Runnable;
    if nodes[0].Cmd? {
      var after := started + [CommandSpawn(nodes[0].cmd, true, cwd, started)];
      if |nodes| > 1 {
        InterpretPiped(nodes, true, cwd, started, codes);
        InterpretKeeps(nodes[2..], nodes[1].Pipe?, cwd, after, codes);
      }
    } else {
      InterpretPipes(nodes[2..], Join(cwd, nodes[0].dir.value), started, codes);
    }
  }

  /** Pipes are passed over until an operator that the status lets through; without one nothing more is started. */
  lemma {:induction false} PassedOver(nodes: seq<Node>, status: int, piped: bool, cwd: string, started: seq<Spawn>,
                                      codes: int -> int)
    requires Runnable(nodes)
    ensures var std := Standard(nodes, false, status, piped, cwd, started, codes);
      if (if status == 0 then And else Or) in nodes then |std.1| > |started| else std == (status, started)
    decreases |nodes|
  {
    RunnableParts(nodes);
    hide Join, Runnable;
    if |nodes| > 1 {
      var rest := nodes[2..];
      if nodes[0].Cmd? && nodes[1].Pipe? {
        PassedOver(rest, status, true, cwd, started, codes);
      } else if Goes(nodes[1], status) {
        StandardStarts(rest, status, false, cwd, started, codes);
      } else {
        PassedOver(rest, status, false, cwd, started, codes);
      }
    }
  }

  /** From any point on the run starts the processes that the standard asks for exactly when it runs alike; then its
      exit code is also the standard's. */
  lemma {:induction false} AlikeFrom(nodes: seq<Node>, status: int, piped: bool, cwd: string, started: seq<Spawn>,
                                     codes: int -> int)
    requires Runnable(nodes) && (piped ==> started != [] && started[|started| - 1].stdout.PipeOut?)
    ensures var run, std :=
      Interpret(nodes, piped, cwd, started, codes), Standard(nodes, true, status, piped, cwd, started, codes);
      if RunsAlike(nodes, piped, |started|, codes) then run == (Exit(std.0), std.1) else run.1 != std.1
    decreases |nodes|
  {
    RunnableParts(nodes);
    hide Join, Runnable;
    if !nodes[0].Cmd? {
      var rest := nodes[2..];
      if piped {
        InterpretPipes(nodes, cwd, started, codes);
        StandardStarts(rest, 0, false, cwd, started, codes);
      } else {
        AlikeFrom(rest, 0, false, Join(cwd, nodes[0].dir.value), started, codes);
      }
    } else {
      AlikeCommand(nodes, status, piped, cwd, started, codes);
    }
  }

  lemma {:induction false} AlikeCommand(nodes: seq<Node>, status: int, piped: bool, cwd: string, started: seq<Spawn>,
                                        codes: int -> int)
    requires Runnable(nodes) && nodes[0].Cmd? && (piped ==> started != [] && started[|started| - 1].stdout.PipeOut?)
    ensures var run, std :=
      Interpret(nodes, piped, cwd, started, codes), Standard(nodes, true, status, piped, cwd, started, codes);
      if RunsAlike(nodes, piped, |started|, codes) then run == (Exit(std.0), std.1) else run.1 != std.1
    decreases |nodes|, 0
  {
    RunnableParts(nodes);
    hide Join, Runnable;
    var cmd, n, code := nodes[0].cmd, |started|, codes(|started|);
    var mine, theirs := CommandSpawn(cmd, piped, cwd, started), StandardSpawn(cmd, piped, cwd, started);
    var after := started + [mine];
    if piped && cmd.stdin.Some? {
      FirstDiffers(nodes, status, cwd, started, codes);
    } else if |nodes| > 1 {
      assert theirs == mine;
      InterpretPiped(nodes, piped, cwd, started, codes);
      var rest := nodes[2..];
      if nodes[1].Pipe? {
        AlikeFrom(rest, status, true, cwd, after, codes);
      } else if Goes(nodes[1], code) {
        AlikeFrom(rest, code, false, cwd, after, codes);
      } else {
        PassedOver(rest, code, false, cwd, after, codes);
      }
    }
  }

  lemma FirstDiffers(nodes: seq<Node>, status: int, cwd: string, started: seq<Spawn>, codes: int -> int)
    requires nodes != [] && nodes[0].Cmd? && nodes[0].cmd.stdin.Some? && started != []
    requires started[|started| - 1].stdout.PipeOut?
    requires |nodes| > 1 ==> nodes[1].IsOperator()
    ensures Interpret(nodes, true, cwd, started, codes).1 != Standard(nodes, true, status, true, cwd, started, codes).1
  {
    var n, code := |started|, codes(|started|);
    var mine, theirs := CommandSpawn(nodes[0].cmd, true, cwd, started), StandardSpawn(nodes[0].cmd, true, cwd, started);
    assert mine.stdin.FromPipe? && !theirs.stdin.FromPipe?;
    hide CommandSpawn, StandardSpawn;
    if |nodes| > 1 {
      InterpretPiped(nodes, true, cwd, started, codes);
      InterpretKeeps(nodes[2..], nodes[1].Pipe?, cwd, started + [mine], codes);
      StandardKeeps(nodes[2..], true, status, true, cwd, started + [theirs], codes);
      StandardKeeps(nodes[2..], Goes(nodes[1], code), code, false, cwd, started + [theirs], codes);
    }
    assert Interpret(nodes, true, cwd, started, codes).1[n] == mine;
    assert Standard(nodes, true, status, true, cwd, started, codes).1[n] == theirs;
  }

  /** An accepted list with complete directory changes starts the processes that the standard asks for exactly when it
      runs alike, and then ends with the standard's exit code. */
  lemma StandardExactly(nodes: seq<Node>, codes: int -> int)
    requires Runnable(nodes)
    ensures var run, std := Interpret(nodes, false, ".", [], codes), Standard(nodes, true, 0, false, ".", [], codes);
      && (run.1 == std.1 <==> RunsAlike(nodes, false, 0, codes))
      && (RunsAlike(nodes, false, 0, codes) ==> run.0 == Exit(std.0))
  {
    AlikeFrom(nodes, 0, false, ".", [], codes);
  }

  /** No exit codes can tell the readings apart: no directory change inside a pipe, no redirected input behind one, and
      behind an operator that follows a command no operator of the other kind. */
  predicate AlwaysAlike(nodes: seq<Node>, piped: bool)
    decreases |nodes|
  {
    if nodes == [] then true
    else if !nodes[0].Cmd? then !piped && (|nodes| == 1 || AlwaysAlike(nodes[2..], false))
    else
      && !(piped && nodes[0].cmd.stdin.Some?)
      && (|nodes| == 1 || AlwaysAlike(nodes[2..], nodes[1].Pipe?))
      && (|nodes| == 1 || nodes[1].Pipe? || (if nodes[1].And? then Or else And) !in nodes[2..])
  }

  /** Exit codes that tell the readings apart, when there are any. */
  lemma {:induction false} TellApart(nodes: seq<Node>, piped: bool, n: nat) returns (codes: int -> int)
    requires !AlwaysAlike(nodes, piped)
    ensures !RunsAlike(nodes, piped, n, codes)
    decreases |nodes|
  {
    codes := k => 0;
    if !nodes[0].Cmd? {
      if !piped { codes := TellApart(nodes[2..], false, n); }
    } else if !(piped && nodes[0].cmd.stdin.Some?) {
      var op, rest := nodes[1], nodes[2..];
      if op.Pipe? {
        codes := TellApart(rest, true, n + 1);
      } else {
        var go := if op.And? then 0 else 1;
        if (if op.And? then Or else And) in rest {
          codes := k => 1 - go;
        } else {
          var later := TellApart(rest, false, n + 1);
          codes := k => if k == n then go else later(k);
          OnlyLater(rest, false, n + 1, later, codes);
        }
      }
    }
  }

  lemma OnlyLater(nodes: seq<Node>, piped: bool, n: nat, codes: int -> int, codes': int -> int)
    requires forall k :: n <= k ==> codes(k) == codes'(k)
    ensures RunsAlike(nodes, piped, n, codes) <==> RunsAlike(nodes, piped, n, codes')
    decreases |nodes|
  {
  }

  /** A list agrees with the standard for all exit codes exactly when its shape says so. */
  lemma {:induction false} AlwaysExactly(nodes: seq<Node>, piped: bool, n: nat)
    ensures AlwaysAlike(nodes, piped) <==> forall codes: int -> int :: RunsAlike(nodes, piped, n, codes)
  {
    if AlwaysAlike(nodes, piped) {
      forall codes: int -> int ensures RunsAlike(nodes, piped, n, codes) { AlwaysRuns(nodes, piped, n, codes); }
    } else {
      var codes := TellApart(nodes, piped, n);
    }
  }

  lemma AlwaysRuns(nodes: seq<Node>, piped: bool, n: nat, codes: int -> int)
    requires AlwaysAlike(nodes, piped)
    ensures RunsAlike(nodes, piped, n, codes)
    decreases |nodes|
  {
  }

  function Plain(program: string): Node { Cmd(Command([program], None, NoOut, NoErr, map[])) }

  /** The list `false && a || b`. */
  function FalseAndOr(): seq<Node> { [Plain("false"), And, Plain("a"), Or, Plain("b")] }

  /** When `false` returns 1 and `b` returns 0 the run ends with 1 after one process; the standard starts `b` and ends
      with 0. */
  lemma FalseAndOrDiffers(codes: int -> int)
    requires codes(0) == 1 && codes(1) == 0
    ensures Parsed(["false", "&&", "a", "||", "b"]) == Ok(FalseAndOr()) && Runnable(FalseAndOr())
    ensures Interpret(FalseAndOr(), false, ".", [], codes) ==
      (Exit(1), [CommandSpawn(Plain("false").cmd, false, ".", [])])
    ensures var std := Standard(FalseAndOr(), true, 0, false, ".", [], codes);
      std.0 == 0 && |std.1| == 2 && std.1[1].argv == ["b"]
  {
    hide *;
    FalseAndOrParsed();
    ParsedWellFormed(["false", "&&", "a", "||", "b"]);
    FalseAndOrRunnable();
    FalseAndOrRun(codes);
    FalseAndOrStandard(codes);
  }

  lemma FalseAndOrRunnable()
    requires WellFormed(FalseAndOr())
    ensures Runnable(FalseAndOr())
  {
    hide WellFormed;
  }

  lemma FalseAndOrRun(codes: int -> int)
    requires codes(0) == 1
    ensures Interpret(FalseAndOr(), false, ".", [], codes) ==
      (Exit(1), [CommandSpawn(Plain("false").cmd, false, ".", [])])
  {
    hide CommandSpawn;
    var one := [CommandSpawn(Plain("false").cmd, false, ".", [])];
    assert [] + one == one;
  }

  lemma FalseAndOrStandard(codes: int -> int)
    requires codes(0) == 1 && codes(1) == 0
    ensures var std := Standard(FalseAndOr(), true, 0, false, ".", [], codes);
      std.0 == 0 && |std.1| == 2 && std.1[1].argv == ["b"]
  {
    var nodes := FalseAndOr();
    var rest, last := [Plain("a"), Or, Plain("b")], [Plain("b")];
    assert nodes[2..] == rest && rest[2..] == last;
    var one := [StandardSpawn(Plain("false").cmd, false, ".", [])];
    assert [] + one == one;
    assert Standard(last, true, 1, false, ".", one, codes) ==
      (0, one + [StandardSpawn(Plain("b").cmd, false, ".", one)]);
    hide StandardSpawn;
    assert Standard(rest, false, 1, false, ".", one, codes) == Standard(last, true, 1, false, ".", one, codes);
  }

  lemma FalseAndOrParsed()
    ensures Parsed(["false", "&&", "a", "||", "b"]) == Ok(FalseAndOr())
  {
    var b := Line([Simple("b")], End);
    var a := Line([Simple("a")], OrElse(b));
    var line := Line([Simple("false")], AndThen(a));
    hide *;
    SimpleLine("b", End);
    SimpleLine("a", OrElse(b));
    SimpleLine("false", AndThen(a));
    FalseAndOrSpelled();
    ParseRoundTrip(line);
  }

  lemma FalseAndOrSpelled()
    ensures ["false"] + (["&&"] + (["a"] + (["||"] + (["b"] + [])))) == ["false", "&&", "a", "||", "b"]
    ensures [Plain("false")] + ([And] + ([Plain("a")] + ([Or] + ([Plain("b")] + [])))) == FalseAndOr()
  {
  }

  function Simple(program: string): Stage { Stage([], [], program, []) }

  /** A line that starts with a program alone. */
  lemma SimpleLine(program: string, rest: Rest)
    requires '=' !in program && program != "cd"
    requires rest.End? || (GoodLine(rest.next) && SpellableLine(rest.next))
    ensures var line := Line([Simple(program)], rest);
      && GoodLine(line) && SpellableLine(line)
      && LineNodes(line) == [Plain(program)] +
         (match rest
          case End => []
          case AndThen(next) => [And] + LineNodes(next)
          case OrElse(next) => [Or] + LineNodes(next))
      && LineTokens(line) == [program] +
         (match rest
          case End => []
          case AndThen(next) => ["&&"] + LineTokens(next)
          case OrElse(next) => ["||"] + LineTokens(next))
  {
    SimpleStage(program);
    hide StageNodes, StagesTokens, Spellable;
  }

  lemma SimpleStage(program: string)
    requires '=' !in program && program != "cd"
    ensures StageNodes([Simple(program)]) == [Plain(program)] && StagesTokens([Simple(program)]) == [program]
    ensures Spellable(Simple(program))
  {
    hide NameLength;
    assert [program] + [] == [program];
    assert ChdirNodes([]) == [] && DirTokens([]) == [] && EnvTokens([]) == [] && EnvMap([]) == map[];
  }
}
