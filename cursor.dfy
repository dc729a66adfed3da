/**
 * The prompt cursor of `DPAbstractSamplerNode` (nodes/sampler.py) as a state
 * machine on values: the node's fields form a `State`, and `GetPrompt` is one
 * call of the node's entry point.
 */
module Cursor {
  import opened Wrappers
  import opened PromptText
  import opened Sampling

  /**
   * What one `get_prompt` call gives its caller: a prompt string, or the
   * `RuntimeError` that escapes when the retry draw raises one.
   */
  datatype Outcome = Returned(prompt: string) | Raised

  /**
   * The node's fields `_current_mode`, `_current_prompt` and `_prompts`
   * (`None` where the source holds `""`, `None` or nothing), and how many
   * sequences the node has opened, which names the next one.
   */
  datatype State = State(mode: Option<Mode>, prompt: Option<string>, prompts: Option<Sequence>, issued: nat)

  /** The state `__init__` leaves: mode `""`, template `None`, `_prompts` not yet assigned. */
  const Initial: State := State(None, None, None, 0)

  /** `g` is an open sequence bound to `(template, mode)`. */
  predicate BoundTo(g: Option<Sequence>, template: string, mode: Mode) {
    g.Some? && g.value.template == template && g.value.mode == mode
  }

  /**
   * The node's invariant: a remembered template always comes with a
   * remembered mode and with an open sequence, opened by this node, bound to both.
   */
  predicate Consistent(s: State) {
    s.prompt.Some? ==>
      s.mode.Some? && BoundTo(s.prompts, s.prompt.value, s.mode.value) && s.prompts.value.id < s.issued
  }

  /** The initial state satisfies the invariant. */
  lemma InitialConsistent()
    ensures Consistent(Initial)
  {
  }

  /**
   * Lines 109-111 with the reset of line 48: a different mode is recorded and
   * the remembered template is forgotten; the open sequence is kept.
   */
  function SwitchMode(s: State, mode: Mode): (r: State)
    ensures Consistent(s) ==> Consistent(r)
  {
    if s.mode != Some(mode) then s.(mode := Some(mode), prompt := None) else s
  }

  /** `has_prompt_changed`: plain string inequality; a forgotten template differs from every text. */
  predicate HasPromptChanged(current: Option<string>, text: string) {
    current != Some(text)
  }

  /**
   * Lines 119-121: on a changed template, remember it and open a fresh
   * sequence for `(text, mode)`. On a consistent state whose mode is already
   * `mode`, the open sequence afterwards is bound to `(text, mode)`, so the
   * two `None` checks of lines 123-129 cannot fire.
   */
  function Rebind(s: State, text: string, mode: Mode): (r: State)
    ensures r.prompt == Some(text) && r.mode == s.mode
    ensures s.mode == Some(mode) && Consistent(s) ==> BoundTo(r.prompts, text, mode) && Consistent(r)
  {
    if HasPromptChanged(s.prompt, text) then
      s.(prompt := Some(text), prompts := Some(Open(text, mode, s.issued)), issued := s.issued + 1)
    else
      s
  }

  /**
   * `_get_next_prompt`: draw from the node's open sequence `g`; when that
   * raises `StopIteration` or `RuntimeError`, open a fresh sequence for
   * `(current, mode)` and draw once more, turning a second `StopIteration`
   * into `""` and letting a second `RuntimeError` escape.
   */
  function NextPrompt(engine: Engine, s: State, g: Sequence, current: string, mode: Mode): (r: (Outcome, State))
    requires s.prompts == Some(g)
    ensures r.1.mode == s.mode && r.1.prompt == s.prompt
    ensures Peek(engine, g).Yield? ==>
      && r.0 == Returned(Peek(engine, g).item)
      && r.1.prompts == Some(g.(position := g.position + 1))
      && r.1.issued == s.issued
    ensures !Peek(engine, g).Yield? ==> r.1.issued == s.issued + 1
    ensures !Peek(engine, g).Yield? && engine(current, mode, s.issued, 0).Yield? ==>
      && r.0 == Returned(engine(current, mode, s.issued, 0).item)
      && r.1.prompts == Some(Open(current, mode, s.issued).(position := 1))
    ensures !Peek(engine, g).Yield? && engine(current, mode, s.issued, 0).Stop? ==>
      && r.0 == Returned("")
      && r.1.prompts == Some(Open(current, mode, s.issued).(finished := true))
    ensures !Peek(engine, g).Yield? && engine(current, mode, s.issued, 0).Fault? ==>
      && r.0 == Raised
      && r.1.prompts == Some(Open(current, mode, s.issued).(finished := true))
  {
    var (first, g1) := Next(engine, g);
    if first.Yield? then
      (Returned(first.item), s.(prompts := Some(g1)))
    else
      var (second, h1) := Next(engine, Open(current, mode, s.issued));
      var s' := s.(prompts := Some(h1), issued := s.issued + 1);
      match second
      case Yield(p) => (Returned(p), s')
      case Stop => (Returned(""), s')
      case Fault => (Raised, s')
  }

  /**
   * One `get_prompt(text, seed, mode)` call (lines 103-134). The seed has no
   * effect on the state: reseeding is recorded by the node class.
   */
  function GetPrompt(engine: Engine, s: State, text: string, mode: Mode): (r: (Outcome, State))
    ensures r.1.mode == Some(mode)
    ensures Consistent(s) ==> Consistent(r.1)
    // a blank template short-circuits after the mode step and touches no sequence
    ensures IsBlank(text) ==>
      && r.0 == Returned("")
      && r.1.prompt == (if s.mode == Some(mode) then s.prompt else None)
      && r.1.prompts == s.prompts && r.1.issued == s.issued
    // after a non-blank call the node remembers the text, bound to a sequence for (text, mode)
    ensures !IsBlank(text) ==> r.1.prompt == Some(text)
    ensures !IsBlank(text) && Consistent(s) ==> BoundTo(r.1.prompts, text, mode)
  {
    var s1 := SwitchMode(s, mode);
    if IsBlank(text) then
      (Returned(""), s1)
    else
      var s2 := Rebind(s1, text, mode);
      if s2.prompts.None? then
        (Returned(""), s2)
      else if s2.prompt.None? then
        (Returned(""), s2)
      else
        NextPrompt(engine, s2, s2.prompts.value, s2.prompt.value, mode)
  }
}
