/** `get_user_input` and `get_user_variable_choices`: the line read after
    each prompt is trimmed, a blank line keeps the default, and the answers
    given form the override context. Standard input is replaced by the line
    the user gives at each prompt. */
module UserInput {
  import opened Common
  import opened TemplateConfig

  /** `char::is_whitespace`: the Unicode `White_Space` property. */
  predicate IsWhitespace(c: char) {
    var n := c as int;
    || (0x09 <= n <= 0x0D) || n == 0x20 || n == 0x85 || n == 0xA0 || n == 0x1680
    || (0x2000 <= n <= 0x200A) || n == 0x2028 || n == 0x2029 || n == 0x202F
    || n == 0x205F || n == 0x3000
  }

  predicate AllWhitespace(s: string) {
    forall i :: 0 <= i < |s| ==> IsWhitespace(s[i])
  }

  /** `str::trim_start`: drops the leading whitespace. */
  function TrimStart(s: string): string {
    if |s| > 0 && IsWhitespace(s[0]) then TrimStart(s[1..]) else s
  }

  /** `str::trim_end`: drops the trailing whitespace. */
  function TrimEnd(s: string): string {
    if |s| > 0 && IsWhitespace(s[|s| - 1]) then TrimEnd(s[..|s| - 1]) else s
  }

  /** `str::trim`: removes whitespace at both ends. */
  function Trim(s: string): string {
    TrimEnd(TrimStart(s))
  }

  /** `TrimStart` keeps a suffix that starts with a non-whitespace character,
      and drops only whitespace. */
  lemma {:induction false} TrimStartSpec(s: string)
    ensures var r := TrimStart(s);
      && |r| <= |s| && r == s[|s| - |r|..]
      && AllWhitespace(s[..|s| - |r|])
      && (r == [] || !IsWhitespace(r[0]))
  {
    if |s| > 0 && IsWhitespace(s[0]) {
      TrimStartSpec(s[1..]);
      var r := TrimStart(s);
      assert s[..|s| - |r|] == [s[0]] + s[1..][..|s| - 1 - |r|];
    }
  }

  /** `TrimEnd` keeps a prefix that ends with a non-whitespace character,
      and drops only whitespace. */
  lemma {:induction false} TrimEndSpec(s: string)
    ensures var r := TrimEnd(s);
      && |r| <= |s| && r == s[..|r|]
      && AllWhitespace(s[|r|..])
      && (r == [] || !IsWhitespace(r[|r| - 1]))
  {
    if |s| > 0 && IsWhitespace(s[|s| - 1]) {
      TrimEndSpec(s[..|s| - 1]);
      var r := TrimEnd(s);
      assert s[|r|..] == s[..|s| - 1][|r|..] + [s[|s| - 1]];
    }
  }

  /** `Trim` yields the empty string exactly for blank input; otherwise it
      neither starts nor ends with whitespace, and it is the infix of the
      input that only whitespace surrounds. */
  lemma TrimSpec(s: string)
    ensures Trim(s) == [] <==> AllWhitespace(s)
    ensures var r := Trim(s); r != [] ==> !IsWhitespace(r[0]) && !IsWhitespace(r[|r| - 1])
    ensures var r := Trim(s); var i := |s| - |TrimStart(s)|;
      && 0 <= i && i + |r| <= |s|
      && r == s[i..i + |r|]
      && AllWhitespace(s[..i])
      && AllWhitespace(s[i + |r|..])
  {
    var t := TrimStart(s);
    TrimStartSpec(s);
    TrimEndSpec(t);
    var r := TrimEnd(t);
    var i := |s| - |t|;
    assert s[i + |r|..] == t[|r|..];
    if r == [] {
      assert s == s[..i] + t;
    }
  }

  lemma TrimIdempotent(s: string)
    ensures Trim(Trim(s)) == Trim(s)
  {
    TrimSpec(s);
    var r := Trim(s);
    assert TrimStart(r) == r;
    assert TrimEnd(r) == r;
  }

  /** `get_user_input` on the line read: `None` for a blank line, otherwise
      the trimmed line. */
  function ReadAnswer(line: string): Option<string> {
    var trimmed := Trim(line);
    if trimmed == "" then None else Some(trimmed)
  }

  /** `get_user_input` answers `None` exactly for a blank line; any answer
      is the trimmed line, non-empty and without whitespace at either end. */
  lemma ReadAnswerSpec(line: string)
    ensures ReadAnswer(line).None? <==> AllWhitespace(line)
    ensures ReadAnswer(line).Some? ==> ReadAnswer(line).value == Trim(line)
    ensures var r := ReadAnswer(line); r.Some? ==>
      |r.value| > 0 && !IsWhitespace(r.value[0]) && !IsWhitespace(r.value[|r.value| - 1])
  {
    TrimSpec(line);
  }

  /** An answer that is already trimmed and not blank comes back unchanged. */
  lemma ReadAnswerKeepsTrimmed(s: string)
    requires |s| > 0 && !IsWhitespace(s[0]) && !IsWhitespace(s[|s| - 1])
    ensures ReadAnswer(s) == Some(s)
  {
    assert TrimStart(s) == s;
    assert TrimEnd(s) == s;
  }

  /** The prompt shown for one variable: `<name> [<default>]: `. */
  function VariablePrompt(name: string, default: string): string {
    name + " [" + default + "]: "
  }

  /** The line the user typed at the prompt for `name`; a missing line is
      end of input, which `read_line` leaves empty. */
  function AnswerFor(answers: map<string, string>, name: string): string {
    if name in answers then answers[name] else ""
  }

  /** The override context `get_user_variable_choices` returns: the
      declared variables the user answered, bound to their answers. */
  function VariableChoices(variables: map<string, string>, answers: map<string, string>): (r: map<string, string>)
    ensures r.Keys <= variables.Keys
  {
    map k | k in variables && ReadAnswer(AnswerFor(answers, k)).Some? :: ReadAnswer(AnswerFor(answers, k)).value
  }

  /** A variable is overridden exactly when its answer is not blank, and
      then by the trimmed answer. */
  lemma VariableChoicesSpec(variables: map<string, string>, answers: map<string, string>)
    ensures forall k :: k in variables ==>
      (k in VariableChoices(variables, answers) <==> !AllWhitespace(AnswerFor(answers, k)))
    ensures forall k :: k in VariableChoices(variables, answers) ==>
      VariableChoices(variables, answers)[k] == Trim(AnswerFor(answers, k))
  {
    forall k | k in variables {
      ReadAnswerSpec(AnswerFor(answers, k));
    }
  }

  /** The variables whose name is in `names`. */
  function Restrict(variables: map<string, string>, names: set<string>): map<string, string> {
    map k | k in variables && k in names :: variables[k]
  }

  /** Prompting for one more variable extends the choices by at most that
      variable's answer. */
  lemma ChoicesStep(variables: map<string, string>, names: set<string>, name: string, answers: map<string, string>)
    requires name in variables
    ensures VariableChoices(Restrict(variables, names + {name}), answers) ==
      if ReadAnswer(AnswerFor(answers, name)).None? then VariableChoices(Restrict(variables, names), answers)
      else VariableChoices(Restrict(variables, names), answers)[name := ReadAnswer(AnswerFor(answers, name)).value]
  {
  }

  /** `get_user_variable_choices` as the source runs it: one prompt per
      stored variable, in the map's iteration order, with each non-blank
      answer inserted into the context. */
  method GetUserVariableChoices(c: TemplateConfig, answers: map<string, string>)
    returns (prompts: seq<string>, ctx: map<string, string>, ghost items: seq<(string, string)>)
    ensures ctx == VariableChoices(c.variables, answers)
    ensures |prompts| == |c.variables|
    ensures |items| == |prompts| && Distinct(Names(items)) && NameSet(items) == c.variables.Keys
    ensures forall i :: 0 <= i < |prompts| ==>
      items[i].0 in c.variables && prompts[i] == VariablePrompt(items[i].0, c.variables[items[i].0])
  {
    var snapshot := VariableItems(c);
    items := snapshot;
    prompts, ctx := PromptForEach(snapshot, c.variables, answers);
  }

  /** The prompts shown for the first `n` items, in order. */
  function PromptsUpTo(items: seq<(string, string)>, n: nat): seq<string>
    requires n <= |items|
  {
    if n == 0 then [] else PromptsUpTo(items, n - 1) + [VariablePrompt(items[n - 1].0, items[n - 1].1)]
  }

  lemma {:induction false} PromptsUpToSpec(items: seq<(string, string)>, n: nat)
    requires n <= |items|
    ensures |PromptsUpTo(items, n)| == n
    ensures forall j :: 0 <= j < n ==> PromptsUpTo(items, n)[j] == VariablePrompt(items[j].0, items[j].1)
  {
    if n > 0 {
      var m := n - 1;
      PromptsUpToSpec(items, m);
    }
  }

  /** Binds `name` to the answer, if one was given. */
  function Insert(ctx: map<string, string>, name: string, answer: Option<string>): map<string, string> {
    if answer.Some? then ctx[name := answer.value] else ctx
  }

  /** The context after the answers to the first `n` items, each non-blank
      answer inserted in turn. */
  function ChoicesUpTo(items: seq<(string, string)>, n: nat, answers: map<string, string>): map<string, string>
    requires n <= |items|
  {
    if n == 0 then map[]
    else Insert(ChoicesUpTo(items, n - 1, answers), items[n - 1].0, ReadAnswer(AnswerFor(answers, items[n - 1].0)))
  }

  /** Inserting the answers one at a time gives the override context of the
      variables asked about so far. */
  lemma {:induction false} ChoicesUpToSpec(items: seq<(string, string)>, n: nat, variables: map<string, string>, answers: map<string, string>)
    requires n <= |items|
    requires forall i :: 0 <= i < |items| ==> items[i].0 in variables
    ensures ChoicesUpTo(items, n, answers) == VariableChoices(Restrict(variables, NameSetUpTo(items, n)), answers)
  {
    if n > 0 {
      var m := n - 1;
      ChoicesUpToSpec(items, m, variables, answers);
      ChoicesStep(variables, NameSetUpTo(items, m), items[m].0, answers);
    }
  }

  /** The loop of `get_user_variable_choices` over a snapshot of the
      variables. */
  method PromptForEach(items: seq<(string, string)>, variables: map<string, string>, answers: map<string, string>)
    returns (prompts: seq<string>, ctx: map<string, string>)
    requires Stored(items, variables)
    requires NameSet(items) == variables.Keys
    ensures ctx == VariableChoices(variables, answers)
    ensures |prompts| == |items|
    ensures forall i :: 0 <= i < |prompts| ==> prompts[i] == VariablePrompt(items[i].0, variables[items[i].0])
  {
    prompts, ctx := AskAll(items, answers);
    PromptsUpToSpec(items, |items|);
    ChoicesUpToSpec(items, |items|, variables, answers);
    AllNamesAsked(items, variables);
  }

  /** The loop itself: one prompt and one answer per item, in order. */
  method AskAll(items: seq<(string, string)>, answers: map<string, string>)
    returns (prompts: seq<string>, ctx: map<string, string>)
    ensures prompts == PromptsUpTo(items, |items|)
    ensures ctx == ChoicesUpTo(items, |items|, answers)
  {
    prompts := [];
    ctx := map[];
    var i := 0;
    while i < |items|
      invariant 0 <= i <= |items|
      invariant prompts == PromptsUpTo(items, i)
      invariant ctx == ChoicesUpTo(items, i, answers)
    {
      var name := items[i].0;
      prompts := prompts + [VariablePrompt(name, items[i].1)];
      ctx := Insert(ctx, name, ReadAnswer(AnswerFor(answers, name)));
      i := i + 1;
    }
  }

  /** Once every item is asked about, the variables asked about are all of
      them. */
  lemma AllNamesAsked(items: seq<(string, string)>, variables: map<string, string>)
    requires NameSet(items) == variables.Keys
    ensures Restrict(variables, NameSetUpTo(items, |items|)) == variables
  {
    NameSetUpToSpec(items, |items|);
  }
}
