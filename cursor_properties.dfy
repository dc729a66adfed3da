/**
 * Properties of the prompt cursor over one call and over runs of calls.
 */
module CursorProperties {
  import opened Wrappers
  import opened PromptText
  import opened Sampling
  import opened Cursor

  /** The call must rebuild: the mode differs from the remembered one, or the template does. */
  predicate Rebuilds(s: State, text: string, mode: Mode) {
    s.mode != Some(mode) || HasPromptChanged(s.prompt, text)
  }

  /**
   * A change of template or mode rebuilds: the call opens a fresh sequence
   * for `(text, mode)` and draws position 0 of it. If that yields, its item is
   * returned and the sequence is left at position 1; otherwise the node
   * reopens once more and the next fresh sequence's first draw decides.
   */
  lemma ChangeRebuilds(engine: Engine, s: State, text: string, mode: Mode)
    requires !IsBlank(text) && Rebuilds(s, text, mode)
    ensures var r := GetPrompt(engine, s, text, mode);
      && BoundTo(r.1.prompts, text, mode)
      && r.1.prompts.value.id >= s.issued
      && r.1.issued > s.issued
    ensures engine(text, mode, s.issued, 0).Yield? ==>
      GetPrompt(engine, s, text, mode) ==
        (Returned(engine(text, mode, s.issued, 0).item),
         State(Some(mode), Some(text), Some(Open(text, mode, s.issued).(position := 1)), s.issued + 1))
    ensures !engine(text, mode, s.issued, 0).Yield? ==>
      var retry := Open(text, mode, s.issued + 1);
      var after := State(Some(mode), Some(text), Some(Next(engine, retry).1), s.issued + 2);
      && (engine(text, mode, s.issued + 1, 0).Yield? ==>
            GetPrompt(engine, s, text, mode) == (Returned(engine(text, mode, s.issued + 1, 0).item), after)
            && after.prompts == Some(retry.(position := 1)))
      && (engine(text, mode, s.issued + 1, 0).Stop? ==>
            GetPrompt(engine, s, text, mode) == (Returned(""), after)
            && after.prompts == Some(retry.(finished := true)))
      && (engine(text, mode, s.issued + 1, 0).Fault? ==>
            GetPrompt(engine, s, text, mode) == (Raised, after))
  {
  }

  /**
   * Changing the mode forgets the template even across a blank call: after a
   * blank call in the new mode, the same text as before still rebuilds.
   */
  lemma ModeSwitchForcesRebuild(engine: Engine, s: State, blank: string, text: string, mode: Mode)
    requires s.mode != Some(mode)
    requires IsBlank(blank) && !IsBlank(text)
    ensures var r1 := GetPrompt(engine, s, blank, mode);
      && r1.1.prompt == None
      && Rebuilds(r1.1, text, mode)
      && var r2 := GetPrompt(engine, r1.1, text, mode);
         BoundTo(r2.1.prompts, text, mode) && r2.1.prompts.value.id >= s.issued
  {
  }

  /**
   * With the template and mode unchanged and an item left, there is no
   * rebuild: the open sequence advances by exactly one draw and that item is
   * returned; nothing else changes.
   */
  lemma UnchangedInputAdvances(engine: Engine, s: State, text: string, mode: Mode)
    requires !IsBlank(text) && Consistent(s) && !Rebuilds(s, text, mode)
    requires Peek(engine, s.prompts.value).Yield?
    ensures var g := s.prompts.value;
      GetPrompt(engine, s, text, mode) ==
        (Returned(engine(text, mode, g.id, g.position).item), s.(prompts := Some(g.(position := g.position + 1))))
  {
  }

  /**
   * With the template and mode unchanged and the open sequence exhausted, the
   * node opens a fresh sequence for `(text, mode)` and returns what its first
   * draw gives: the first item, leaving it at position 1, or `""` when it is
   * empty. Neither way fails.
   */
  lemma ExhaustionReopens(engine: Engine, s: State, text: string, mode: Mode)
    requires !IsBlank(text) && Consistent(s) && !Rebuilds(s, text, mode)
    requires !Peek(engine, s.prompts.value).Yield?
    requires !engine(text, mode, s.issued, 0).Fault?
    ensures var r := GetPrompt(engine, s, text, mode);
      && r.1.issued == s.issued + 1
      && (engine(text, mode, s.issued, 0).Yield? ==>
            r == (Returned(engine(text, mode, s.issued, 0).item),
                  s.(prompts := Some(Open(text, mode, s.issued).(position := 1)), issued := s.issued + 1)))
      && (engine(text, mode, s.issued, 0).Stop? ==>
            r == (Returned(""),
                  s.(prompts := Some(Open(text, mode, s.issued).(finished := true)), issued := s.issued + 1)))
  {
  }

  /**
   * A call fails only when the freshly reopened sequence raises
   * `RuntimeError` on its first draw, the one exception the retry does not catch.
   */
  lemma RaisesOnlyOnRetryFault(engine: Engine, s: State, text: string, mode: Mode)
    requires GetPrompt(engine, s, text, mode).0 == Raised
    ensures var r := GetPrompt(engine, s, text, mode);
      && !IsBlank(text)
      && r.1.prompts.Some? && r.1.prompts.value.finished && r.1.prompts.value.position == 0
      && r.1.prompts.value.template == text && r.1.prompts.value.mode == mode
      && engine(text, mode, r.1.prompts.value.id, 0).Fault?
  {
  }

  /**
   * No leakage between templates: a call that rebuilds ends the same way
   * whatever template, mode and sequence the node remembered before, so it is
   * indistinguishable from the same call on a node that never saw them
   * (one that has issued as many sequences).
   */
  lemma RebuildForgetsPast(engine: Engine, s1: State, s2: State, text: string, mode: Mode)
    requires !IsBlank(text) && Rebuilds(s1, text, mode) && Rebuilds(s2, text, mode)
    requires s1.issued == s2.issued
    ensures GetPrompt(engine, s1, text, mode) == GetPrompt(engine, s2, text, mode)
  {
  }

  /** `n` successive `get_prompt(text, _, mode)` calls: their outcomes and the state afterwards. */
  function Repeat(engine: Engine, s: State, text: string, mode: Mode, n: nat): (r: (seq<Outcome>, State))
    ensures |r.0| == n
  {
    if n == 0 then
      ([], s)
    else
      var before := Repeat(engine, s, text, mode, n - 1);
      var call := GetPrompt(engine, before.1, text, mode);
      (before.0 + [call.0], call.1)
  }

  /** Calls with unchanged input keep the invariant. */
  lemma {:induction false} RepeatConsistent(engine: Engine, s: State, text: string, mode: Mode, n: nat)
    requires Consistent(s)
    ensures Consistent(Repeat(engine, s, text, mode, n).1)
  {
    if n > 0 {
      RepeatConsistent(engine, s, text, mode, n - 1);
    }
  }

  /**
   * Under unchanged input the node walks its open sequence: while items are
   * left, `n` calls return the next `n` items in order and leave the
   * sequence `n` positions further on, opening nothing.
   */
  lemma {:induction false} RepeatWalksSequence(engine: Engine, s: State, text: string, mode: Mode, n: nat)
    requires !IsBlank(text) && Consistent(s) && s.mode == Some(mode) && s.prompt == Some(text)
    requires !s.prompts.value.finished
    requires forall j :: s.prompts.value.position <= j < s.prompts.value.position + n ==>
               engine(text, mode, s.prompts.value.id, j).Yield?
    ensures var g := s.prompts.value;
      && Repeat(engine, s, text, mode, n).1 == s.(prompts := Some(g.(position := g.position + n)))
      && forall i :: 0 <= i < n ==>
           Repeat(engine, s, text, mode, n).0[i] == Returned(engine(text, mode, g.id, g.position + i).item)
  {
    if n > 0 {
      RepeatWalksSequence(engine, s, text, mode, n - 1);
      var g := s.prompts.value;
      assert engine(text, mode, g.id, g.position + (n - 1)).Yield?;
      WalkOneStep(engine, s, text, mode, n);
    }
  }

  /** The inductive step of `RepeatWalksSequence`: call `n` draws item `n - 1` of the walk. */
  lemma WalkOneStep(engine: Engine, s: State, text: string, mode: Mode, n: nat)
    requires !IsBlank(text) && Consistent(s) && s.mode == Some(mode) && s.prompt == Some(text)
    requires n > 0 && !s.prompts.value.finished
    requires engine(text, mode, s.prompts.value.id, s.prompts.value.position + (n - 1)).Yield?
    requires Repeat(engine, s, text, mode, n - 1).1 ==
             s.(prompts := Some(s.prompts.value.(position := s.prompts.value.position + (n - 1))))
    ensures var g := s.prompts.value;
      Repeat(engine, s, text, mode, n) ==
        (Repeat(engine, s, text, mode, n - 1).0 + [Returned(engine(text, mode, g.id, g.position + (n - 1)).item)],
         s.(prompts := Some(g.(position := g.position + n))))
  {
  }

  /** The sequence `id` opened for `(text, mode)` yields exactly `k` items. */
  ghost predicate HasVariants(engine: Engine, text: string, mode: Mode, id: nat, k: nat) {
    && (forall i :: 0 <= i < k ==> engine(text, mode, id, i).Yield?)
    && engine(text, mode, id, k).Stop?
  }

  /** `n >= 1` calls are the first call followed by `n - 1` calls from the state it leaves. */
  lemma {:induction false} RepeatSplit(engine: Engine, s: State, text: string, mode: Mode, n: nat)
    requires n >= 1
    ensures var first := GetPrompt(engine, s, text, mode);
      var rest := Repeat(engine, first.1, text, mode, n - 1);
      Repeat(engine, s, text, mode, n) == ([first.0] + rest.0, rest.1)
  {
    if n == 1 {
      RepeatOnce(engine, s, text, mode);
    } else {
      RepeatSplit(engine, s, text, mode, n - 1);
      RepeatSplitStep(engine, s, text, mode, n);
    }
  }

  /** The base case of `RepeatSplit`: one call on its own. */
  lemma RepeatOnce(engine: Engine, s: State, text: string, mode: Mode)
    ensures var first := GetPrompt(engine, s, text, mode);
      var rest := Repeat(engine, first.1, text, mode, 0);
      Repeat(engine, s, text, mode, 1) == ([first.0] + rest.0, rest.1)
  {
    var first := GetPrompt(engine, s, text, mode);
    assert Repeat(engine, s, text, mode, 0) == ([], s);
    assert Repeat(engine, first.1, text, mode, 0) == ([], first.1);
    assert Repeat(engine, s, text, mode, 1) == ([] + [first.0], first.1);
    assert [] + [first.0] == [first.0] + [];
  }

  /** The inductive step of `RepeatSplit`: the split at `n - 1` extends to `n`. */
  lemma RepeatSplitStep(engine: Engine, s: State, text: string, mode: Mode, n: nat)
    requires n >= 2
    requires var first := GetPrompt(engine, s, text, mode);
      var rest := Repeat(engine, first.1, text, mode, n - 2);
      Repeat(engine, s, text, mode, n - 1) == ([first.0] + rest.0, rest.1)
    ensures var first := GetPrompt(engine, s, text, mode);
      var rest := Repeat(engine, first.1, text, mode, n - 1);
      Repeat(engine, s, text, mode, n) == ([first.0] + rest.0, rest.1)
  {
    var first := GetPrompt(engine, s, text, mode);
    var rest := Repeat(engine, first.1, text, mode, n - 2);
    var last := GetPrompt(engine, rest.1, text, mode);
    assert Repeat(engine, first.1, text, mode, n - 1) == (rest.0 + [last.0], last.1);
    assert Repeat(engine, s, text, mode, n) == (([first.0] + rest.0) + [last.0], last.1);
    assert ([first.0] + rest.0) + [last.0] == [first.0] + (rest.0 + [last.0]);
  }

  /**
   * Under unchanged input, a sequence at position `p` of `k` items is walked
   * to its end in `k - p` calls, and the call after that returns the first
   * item of the next freshly opened sequence, left at position 1.
   */
  lemma {:induction false} WalkThenRestart(engine: Engine, s: State, text: string, mode: Mode, k: nat)
    requires !IsBlank(text) && Consistent(s) && s.mode == Some(mode) && s.prompt == Some(text)
    requires !s.prompts.value.finished && s.prompts.value.position <= k
    requires HasVariants(engine, text, mode, s.prompts.value.id, k)
    requires engine(text, mode, s.issued, 0).Yield?
    ensures var g := s.prompts.value;
      var r := Repeat(engine, s, text, mode, k - g.position + 1);
      && (forall i :: 0 <= i < k - g.position ==> r.0[i] == Returned(engine(text, mode, g.id, g.position + i).item))
      && r.0[k - g.position] == Returned(engine(text, mode, s.issued, 0).item)
      && r.1 == s.(prompts := Some(Open(text, mode, s.issued).(position := 1)), issued := s.issued + 1)
  {
    var g := s.prompts.value;
    var n := k - g.position;
    RepeatWalksSequence(engine, s, text, mode, n);
    var walked := Repeat(engine, s, text, mode, n);
    var sk := s.(prompts := Some(g.(position := k)));
    assert walked.1 == sk;
    assert Peek(engine, g.(position := k)) == Stop;
    ExhaustionReopens(engine, sk, text, mode);
    var last := GetPrompt(engine, sk, text, mode);
    assert Repeat(engine, s, text, mode, n + 1) == (walked.0 + [last.0], last.1);
  }

  /**
   * A finite sequence cycles. A call that rebuilds for a template with
   * `k >= 1` variants returns the first; the next `k - 1` calls return the
   * others in order; call `k + 1` finds the sequence exhausted, reopens it
   * and, when the reopened sequence starts with the same variant (as
   * combinatorial enumeration does), returns the first variant again.
   */
  lemma {:induction false} FiniteSequenceCycles(engine: Engine, s: State, text: string, mode: Mode, k: nat)
    requires !IsBlank(text) && Consistent(s) && Rebuilds(s, text, mode)
    requires k >= 1 && HasVariants(engine, text, mode, s.issued, k)
    requires engine(text, mode, s.issued + 1, 0) == engine(text, mode, s.issued, 0)
    ensures var r := Repeat(engine, s, text, mode, k + 1);
      && (forall i :: 0 <= i < k ==> r.0[i] == Returned(engine(text, mode, s.issued, i).item))
      && r.0[k] == r.0[0] == Returned(engine(text, mode, s.issued, 0).item)
      && r.1 == State(Some(mode), Some(text), Some(Open(text, mode, s.issued + 1).(position := 1)), s.issued + 2)
  {
    var s1 := State(Some(mode), Some(text), Some(Open(text, mode, s.issued).(position := 1)), s.issued + 1);
    var first := GetPrompt(engine, s, text, mode);
    assert first == (Returned(engine(text, mode, s.issued, 0).item), s1) by {
      assert engine(text, mode, s.issued, 0).Yield?;
      ChangeRebuilds(engine, s, text, mode);
    }
    var rest := Repeat(engine, s1, text, mode, k);
    var r := Repeat(engine, s, text, mode, k + 1);
    assert r == ([first.0] + rest.0, rest.1) by {
      RepeatSplit(engine, s, text, mode, k + 1);
    }
    assert |rest.0| == k
      && (forall i :: 0 <= i < k - 1 ==> rest.0[i] == Returned(engine(text, mode, s.issued, 1 + i).item))
      && rest.0[k - 1] == Returned(engine(text, mode, s.issued + 1, 0).item)
      && rest.1 == State(Some(mode), Some(text), Some(Open(text, mode, s.issued + 1).(position := 1)), s.issued + 2)
    by {
      assert s1.prompts.value.position == 1 && k - 1 + 1 == k;
      WalkThenRestart(engine, s1, text, mode, k);
    }
    PrependFirst(engine, text, mode, s.issued, k, first.0, rest.0);
  }

  /** Putting the first variant in front of the other `k - 1` and the restarted one. */
  lemma PrependFirst(engine: Engine, text: string, mode: Mode, id: nat, k: nat, x: Outcome, rest: seq<Outcome>)
    requires k >= 1 && HasVariants(engine, text, mode, id, k)
    requires engine(text, mode, id + 1, 0) == engine(text, mode, id, 0)
    requires x == Returned(engine(text, mode, id, 0).item) && |rest| == k
    requires forall i :: 0 <= i < k - 1 ==> rest[i] == Returned(engine(text, mode, id, 1 + i).item)
    requires rest[k - 1] == Returned(engine(text, mode, id + 1, 0).item)
    ensures forall i :: 0 <= i < k ==> ([x] + rest)[i] == Returned(engine(text, mode, id, i).item)
    ensures ([x] + rest)[k] == ([x] + rest)[0] == x
  {
    var c := [x] + rest;
    assert c[k] == rest[k - 1];
    forall i | 1 <= i < k ensures c[i] == Returned(engine(text, mode, id, i).item) {
      assert c[i] == rest[i - 1];
    }
  }

  /**
   * A template that resolves to no prompt at all never fails the node: every
   * call returns `""`.
   */
  lemma {:induction false} NoVariantsReturnEmpty(engine: Engine, s: State, text: string, mode: Mode, n: nat)
    requires !IsBlank(text) && Consistent(s)
    requires forall id: nat, i: nat :: engine(text, mode, id, i) == Stop
    ensures forall i :: 0 <= i < n ==> Repeat(engine, s, text, mode, n).0[i] == Returned("")
  {
    if n > 0 {
      NoVariantsReturnEmpty(engine, s, text, mode, n - 1);
      var s' := Repeat(engine, s, text, mode, n - 1).1;
      RepeatConsistent(engine, s, text, mode, n - 1);
      var s1 := SwitchMode(s', mode);
      var s2 := Rebind(s1, text, mode);
      assert engine(text, mode, s2.issued, 0) == Stop;
      assert Peek(engine, s2.prompts.value) == Stop by {
        var g := s2.prompts.value;
        if !g.finished {
          assert engine(text, mode, g.id, g.position) == Stop;
        }
      }
    }
  }

  /**
   * A fresh node given, in combinatorial mode, a template with exactly two
   * variants returns the first, then the second, then the first again.
   */
  lemma TwoVariantScenario(engine: Engine, text: string, a: string, b: string)
    requires !IsBlank(text)
    requires engine(text, Combinatorial, 0, 0) == Yield(a)
    requires engine(text, Combinatorial, 0, 1) == Yield(b)
    requires engine(text, Combinatorial, 0, 2) == Stop
    requires engine(text, Combinatorial, 1, 0) == Yield(a)
    ensures Repeat(engine, Initial, text, Combinatorial, 3).0 == [Returned(a), Returned(b), Returned(a)]
  {
    FiniteSequenceCycles(engine, Initial, text, Combinatorial, 2);
  }
}
