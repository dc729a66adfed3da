/**
 * `DPAbstractSamplerNode` (nodes/sampler.py) as a class whose fields the
 * methods update in place, each method proved against the value model of
 * module `Cursor`.
 */
module Sampler {
  import opened Wrappers
  import opened PromptText
  import opened Sampling
  import Cursor

  /** A call of `context(mode).rand.seed(seed)`. */
  datatype Reseed = Reseed(mode: Mode, seed: int)

  class SamplerNode {
    /** The external library, as far as this node sees it. */
    const engine: Engine

    var currentMode: Option<Mode>      // _current_mode, "" until the first call
    var currentPrompt: Option<string>  // _current_prompt
    var prompts: Option<Sequence>      // _prompts, unassigned until a sequence is opened
    var issued: nat                    // sequences opened so far, naming the next one

    /** Every reseed the node has made, in order; it has no effect on the sequences. */
    ghost var reseeds: seq<Reseed>

    /** The node's fields as a value of the model. */
    function Snapshot(): Cursor.State
      reads this
    {
      Cursor.State(currentMode, currentPrompt, prompts, issued)
    }

    ghost predicate Valid()
      reads this
    {
      Cursor.Consistent(Snapshot())
    }

    /** `__init__`: the wildcard manager is set up, the template forgotten, the mode set to `""`. */
    constructor (engine: Engine)
      ensures Valid()
      ensures this.engine == engine && Snapshot() == Cursor.Initial && reseeds == []
    {
      this.engine := engine;
      currentPrompt := None;
      currentMode := None;
      prompts := None;
      issued := 0;
      reseeds := [];
    }

    /** The part of `_initialise_wildcard_manager` this model keeps: `_current_prompt = None`. */
    method InitialiseWildcardManager()
      modifies this`currentPrompt
      ensures currentPrompt == None
    {
      currentPrompt := None;
    }

    /** `context(mode).sample_prompts(template)`: a fresh sequence bound to `(template, mode)`. */
    method SamplePrompts(template: string, mode: Mode) returns (g: Sequence)
      modifies this`issued
      ensures g == Open(template, mode, old(issued)) && issued == old(issued) + 1
    {
      g := Open(template, mode, issued);
      issued := issued + 1;
    }

    /**
     * `_get_next_prompt(prompts, current_prompt, mode)`. The argument `g` is
     * the node's own `_prompts`, which `next()` advances in place.
     */
    method GetNextPrompt(g: Sequence, current: string, mode: Mode) returns (r: Cursor.Outcome)
      requires prompts == Some(g)
      modifies this
      ensures (r, Snapshot()) == Cursor.NextPrompt(engine, old(Snapshot()), g, current, mode)
      ensures reseeds == old(reseeds)
    {
      var (first, g1) := Next(engine, g);
      prompts := Some(g1);
      if first.Yield? {
        return Cursor.Returned(first.item);
      }
      var reopened := SamplePrompts(current, mode);
      var (second, h1) := Next(engine, reopened);
      prompts := Some(h1);
      match second
      case Yield(p) => r := Cursor.Returned(p);
      case Stop => r := Cursor.Returned("");
      case Fault => r := Cursor.Raised;
    }

    /**
     * `get_prompt(text, seed, mode)`: one call of the node. The new fields are
     * those of `Cursor.GetPrompt`; a reseed is logged exactly when
     * `seed > 0`, blank template or not.
     */
    method GetPrompt(text: string, seed: int, mode: Mode) returns (r: Cursor.Outcome)
      requires Valid()
      modifies this
      ensures Valid()
      ensures (r, Snapshot()) == Cursor.GetPrompt(engine, old(Snapshot()), text, mode)
      ensures reseeds == old(reseeds) + if seed > 0 then [Reseed(mode, seed)] else []
    {
      if currentMode != Some(mode) {
        currentMode := Some(mode);
        InitialiseWildcardManager();
      }
      if seed > 0 {
        reseeds := reseeds + [Reseed(mode, seed)];
      }
      if IsBlank(text) {
        return Cursor.Returned("");
      }
      if Cursor.HasPromptChanged(currentPrompt, text) {
        currentPrompt := Some(text);
        var g := SamplePrompts(text, mode);
        prompts := Some(g);
      }
      if prompts.None? {
        return Cursor.Returned("");
      }
      if currentPrompt.None? {
        return Cursor.Returned("");
      }
      r := GetNextPrompt(prompts.value, currentPrompt.value, mode);
    }
  }
}
