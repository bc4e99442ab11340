/** `render_single_file`: the configuration's defaults, extended by the
    override context, are handed to the template engine. The engine itself
    is a collaborator. */
module SingleFileRender {
  import opened Common
  import opened TemplateConfig
  import opened UserInput

  /** The engine's render call: the text the named template produces against
      a context, or `None` on a template error. Templates are named by the
      path they were loaded from. */
  type Renderer = (Path, map<string, string>) -> Option<string>

  /** The context a render uses: the context `RenderContext` builds, which
      is exactly the defaults, extended (`Context::extend`) so that every
      override key is bound to its override value, whether or not it names a
      declared variable. */
  function FinalContext(c: TemplateConfig, overrides: Option<map<string, string>>): (ctx: map<string, string>)
    ensures overrides.None? ==> ctx == c.variables
    ensures overrides.Some? ==> ctx.Keys == c.variables.Keys + overrides.value.Keys
    ensures overrides.Some? ==> forall k :: k in overrides.value ==> ctx[k] == overrides.value[k]
    ensures forall k :: k in c.variables && (overrides.None? || k !in overrides.value) ==>
      ctx[k] == c.variables[k]
  {
    match overrides
    case None => c.variables
    case Some(o) => c.variables + o
  }

  /** `render_single_file`: the engine renders the template against the
      final context. */
  function RenderSingleFile(render: Renderer, c: TemplateConfig, template: Path, overrides: Option<map<string, string>>): Option<string> {
    render(template, FinalContext(c, overrides))
  }

  /** Without overrides the engine sees the defaults, and overrides that
      only repeat defaults change nothing. */
  lemma RenderWithDefaults(render: Renderer, c: TemplateConfig, template: Path, overrides: Option<map<string, string>>)
    ensures overrides.None? ==> RenderSingleFile(render, c, template, overrides) == render(template, c.variables)
    ensures overrides.Some? && (forall k :: k in overrides.value ==> k in c.variables && overrides.value[k] == c.variables[k]) ==>
      RenderSingleFile(render, c, template, overrides) == render(template, c.variables)
  {
    if overrides.Some? && (forall k :: k in overrides.value ==> k in c.variables && overrides.value[k] == c.variables[k]) {
      assert FinalContext(c, overrides) == c.variables;
    }
  }

  /** With the answers the user gave, the final context binds exactly the
      declared variables: a variable answered with a non-blank line takes
      the trimmed answer, any other keeps its default. */
  lemma ResolvedBindings(c: TemplateConfig, answers: map<string, string>)
    ensures var ctx := FinalContext(c, Some(VariableChoices(c.variables, answers)));
      && ctx.Keys == c.variables.Keys
      && forall k :: k in c.variables ==>
           ctx[k] == if AllWhitespace(AnswerFor(answers, k)) then c.variables[k] else Trim(AnswerFor(answers, k))
  {
    VariableChoicesSpec(c.variables, answers);
  }
}
