/**
 * The part of the external prompt-generation library the node relies on:
 * `context(mode).sample_prompts(template)` opens a lazily produced sequence of
 * prompts, and `next()` draws one item from it. The library's grammar and its
 * sampling are left abstract as an `Engine`.
 */
module Sampling {

  /** The two accepted values of the node's `mode` input. */
  datatype Mode = Random | Combinatorial

  /** What one `next()` on a prompt sequence does: yield an item, raise `StopIteration`, or raise `RuntimeError`. */
  datatype Step = Yield(item: string) | Stop | Fault

  /**
   * `engine(template, mode, id, i)` is what the `i`-th `next()` on the `id`-th
   * sequence opened for `template` under `mode` does. Sequences are told apart
   * by `id` because each one is produced by its own freshly built sampling
   * context, so a reopened random sequence need not repeat an earlier one.
   */
  type Engine = (string, Mode, nat, nat) -> Step

  /**
   * An open prompt sequence: the template and mode it was opened for, which
   * sequence it is, how many items it has yielded, and whether it has raised.
   */
  datatype Sequence = Sequence(template: string, mode: Mode, id: nat, position: nat, finished: bool)

  /** A sequence as `sample_prompts` returns it: bound to `(template, mode)`, nothing drawn yet. */
  function Open(template: string, mode: Mode, id: nat): Sequence {
    Sequence(template, mode, id, 0, false)
  }

  /**
   * What the next `next()` on `g` does. A Python generator that has raised
   * once raises `StopIteration` on every later `next()`.
   */
  function Peek(engine: Engine, g: Sequence): Step {
    if g.finished then Stop else engine(g.template, g.mode, g.id, g.position)
  }

  /** `next(g)`: the step taken and the sequence afterwards. */
  function Next(engine: Engine, g: Sequence): (r: (Step, Sequence))
    ensures r.0 == Peek(engine, g)
    ensures r.1.template == g.template && r.1.mode == g.mode && r.1.id == g.id
    ensures r.0.Yield? ==> r.1 == g.(position := g.position + 1)
    ensures !r.0.Yield? ==> r.1 == g.(finished := true)
  {
    var step := Peek(engine, g);
    (step, if step.Yield? then g.(position := g.position + 1) else g.(finished := true))
  }

  /** `n` successive `next()` calls on `g`: the steps taken and the sequence afterwards. */
  function Drain(engine: Engine, g: Sequence, n: nat): (r: (seq<Step>, Sequence))
    ensures |r.0| == n
    ensures r.1.template == g.template && r.1.mode == g.mode && r.1.id == g.id
  {
    if n == 0 then ([], g)
    else
      var (steps, h) := Drain(engine, g, n - 1);
      var (step, h') := Next(engine, h);
      (steps + [step], h')
  }

  /** Once a sequence has raised, it stays exhausted: every later `next()` raises `StopIteration` and changes nothing. */
  lemma {:induction false} ExhaustedStaysExhausted(engine: Engine, g: Sequence, n: nat)
    requires g.finished
    ensures Drain(engine, g, n).1 == g
    ensures forall i :: 0 <= i < n ==> Drain(engine, g, n).0[i] == Stop
  {
    if n > 0 {
      ExhaustedStaysExhausted(engine, g, n - 1);
    }
  }

  /**
   * A fresh sequence yields the engine's items in order: as long as the first
   * `n` items exist, `n` draws return exactly them and leave it at position `n`.
   */
  lemma {:induction false} DrainYieldsInOrder(engine: Engine, template: string, mode: Mode, id: nat, n: nat)
    requires forall i :: 0 <= i < n ==> engine(template, mode, id, i).Yield?
    ensures Drain(engine, Open(template, mode, id), n).1 == Open(template, mode, id).(position := n)
    ensures forall i :: 0 <= i < n ==> Drain(engine, Open(template, mode, id), n).0[i] == engine(template, mode, id, i)
  {
    if n > 0 {
      DrainYieldsInOrder(engine, template, mode, id, n - 1);
    }
  }
}
