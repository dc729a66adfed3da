# Prompt cursor of the dynamic-prompts sampler node

This project models, in Dafny, the per-node state machine behind
`DPAbstractSamplerNode.get_prompt` in `nodes/sampler.py`. This is the node
that turns a wildcard template into one concrete prompt string per call. The
node remembers three fields: the last mode (`_current_mode`), the last
template (`_current_prompt`) and the open prompt sequence (`_prompts`). On
each call it does these steps, in this order:

1. It records a changed mode and forgets the template.
2. It reseeds when `seed > 0`.
3. It returns `""` for a template that is blank after `strip()`.
4. It opens a fresh sequence when the literal template changed.
5. It draws one item. If that draw raises `StopIteration` or `RuntimeError`,
   it reopens the sequence and draws once more. A second `StopIteration`
   becomes `""`.

The external library (`dynamicprompts`) is abstract here. An `Engine` says
what the `i`-th `next()` on the `id`-th sequence opened for a template and a
mode does: yield an item, raise `StopIteration` (`Stop`), or raise
`RuntimeError` (`Fault`). Sequences carry an `id` because each one comes from
its own freshly built sampling context. So a reopened random sequence need
not repeat an earlier one. Once a Python generator has raised, every later
`next()` on it raises `StopIteration`; `Sequence.finished` models this.

Files and modules:

- `wrappers.dfy` (`Wrappers`): `Option`, standing for Python's `None`.
- `prompt_text.dfy` (`PromptText`): Python's whitespace set, `strip()`, and
  the blank-template test.
- `sampling.dfy` (`Sampling`): modes, the engine, prompt sequences, `next()`.
- `cursor.dfy` (`Cursor`): the node's fields as a `State` value.
  `NextPrompt` is `_get_next_prompt` and `GetPrompt` is one `get_prompt`
  call, both as functions.
- `cursor_properties.dfy` (`CursorProperties`): properties of one call and of
  runs of calls with unchanged input.
- `sampler.dfy` (`Sampler`): the class `SamplerNode` with the source's
  fields. Its methods update those fields in place. Each method is proved to
  leave the fields that the matching `Cursor` function computes. The class
  also keeps a ghost log of reseeds.

Behaviour of the code worth noting:

- A mode change does not discard the open sequence. It only sets
  `_current_prompt = None` (line 48). That forces the next non-blank call to
  rebuild, and a blank call leaves the old sequence in `_prompts`.
- Reseeding happens exactly when `seed > 0`, so a seed of 0 or a negative
  seed never reseeds, and a blank template with a positive seed still does.
- A template with exactly one variant returns that variant on every call.
  The second call finds the sequence exhausted, reopens it and draws its
  first item again. `""` comes back only when a freshly opened sequence is
  empty at once. `FiniteSequenceCycles` and `TwoVariantScenario` state the
  cycling behaviour.
- The retry catches only `StopIteration` (line 81). A `RuntimeError` from the
  second draw escapes `get_prompt`; the model returns `Raised` then. Other
  exceptions the library may raise are not modelled (see "## Left out").

`Sampling.Drain`, `ExhaustedStaysExhausted` and `DrainYieldsInOrder` are
facts about the generator model on its own; the cursor lemmas reason with
`Next` and `Peek` directly.

## Model

| member | source | states |
|---|---|---|
| PromptText.TrimStart | nodes/sampler.py:116 | the result is the longest suffix of the text that does not start with whitespace; every dropped character is whitespace |
| PromptText.TrimEnd | nodes/sampler.py:116 | the result is the longest prefix of the text that does not end with whitespace; every dropped character is whitespace |
| PromptText.Strip | nodes/sampler.py:116 | `strip()` gives the empty string exactly when every character is Python whitespace; otherwise the result starts and ends with non-whitespace |
| PromptText.IsSpace | nodes/sampler.py:116 | the characters Python's `str.isspace` accepts, which `strip()` removes: U+0009-U+000D, U+001C-U+0020, U+0085, U+00A0, U+1680, U+2000-U+200A, U+2028, U+2029, U+202F, U+205F, U+3000 |
| PromptText.IsBlank | nodes/sampler.py:116 | the node's blank-template test; proved equal to `strip()` giving `""` by `BlankIffStripsToEmpty` |
| PromptText.AllSpaceIffBlank | nodes/sampler.py:116 | a template is blank exactly when every one of its characters is whitespace |
| PromptText.BlankIffStripsToEmpty | nodes/sampler.py:116 | the blank test the node uses is exactly `text.strip() == ""` |
| Sampling.Next | nodes/sampler.py:76 | one `next()`: the step is what the engine gives at the current position (or `Stop` once the sequence has raised); a yield advances the position by one, anything else finishes the sequence; the binding to template, mode and id never changes |
| Sampling.ExhaustedStaysExhausted | nodes/sampler.py:77-81 | a sequence that has raised answers every later `next()` with `StopIteration` and stays unchanged |
| Sampling.DrainYieldsInOrder | nodes/sampler.py:76 | draws from a fresh sequence return the engine's items in order and leave it at position n |
| Cursor.InitialConsistent | nodes/sampler.py:35-48 | the state `__init__` leaves (no mode, no template, no sequence) satisfies the node invariant |
| Cursor.SwitchMode | nodes/sampler.py:109-111 | the mode step (which clears the template, line 48) keeps the node invariant |
| Cursor.HasPromptChanged | nodes/sampler.py:85-89 | `has_prompt_changed`: plain string inequality with the remembered template; a forgotten template (`None`) differs from every text |
| Cursor.Rebind | nodes/sampler.py:119-129 | after the change check the template is remembered; on a consistent state already in this mode, the open sequence is bound to (text, mode), so neither `None` check of lines 123-129 can fire |
| Cursor.NextPrompt | nodes/sampler.py:71-83 | a yielding draw returns its item and advances the sequence by one; otherwise a fresh sequence for (current template, mode) is opened and its first draw decides: an item leaves it at position 1, `StopIteration` gives `""`, `RuntimeError` escapes; the mode and template fields are untouched |
| Cursor.GetPrompt | nodes/sampler.py:103-134 | the mode is recorded; the invariant is kept; a blank template returns `""`, clears the template only on a mode change, and leaves the sequence and the counter alone; a non-blank call remembers the text with a sequence bound to (text, mode) |
| CursorProperties.ChangeRebuilds | nodes/sampler.py:119-131 | a changed template or mode opens a fresh sequence for (text, mode) and draws its position 0: an item is returned with the sequence left at position 1 and the whole new state given; otherwise the next fresh sequence is opened and its first draw gives the item (position 1), `""` (finished) or the escaping `RuntimeError` |
| CursorProperties.ModeSwitchForcesRebuild | nodes/sampler.py:109-121 | after a mode change and a blank call, the template is forgotten and the same text as before still rebuilds |
| CursorProperties.UnchangedInputAdvances | nodes/sampler.py:119-131 | with template and mode unchanged and an item left, nothing is rebuilt: the sequence advances by exactly one draw, that item is returned and nothing else changes |
| CursorProperties.ExhaustionReopens | nodes/sampler.py:77-83 | with unchanged input and the sequence exhausted, a fresh sequence for (text, mode) is opened; its first item is returned with it left at position 1, or `""` if it is empty |
| CursorProperties.RaisesOnlyOnRetryFault | nodes/sampler.py:77-83 | of the steps the engine model has (item, `StopIteration`, `RuntimeError`), the only one that escapes is a `RuntimeError` on the first draw of the freshly reopened sequence for (text, mode), with a non-blank text |
| CursorProperties.RebuildForgetsPast | nodes/sampler.py:119-121 | a rebuilding call ends the same whatever template, mode and sequence were remembered before: nothing of an earlier template leaks into the new draws |
| CursorProperties.RepeatConsistent | nodes/sampler.py:103-134 | repeated calls keep the node invariant |
| CursorProperties.RepeatWalksSequence | nodes/sampler.py:131 | with unchanged input and items left, n calls return the next n items in order and move the sequence n positions on, opening nothing |
| CursorProperties.RepeatSplit | nodes/sampler.py:103-134 | n >= 1 calls are one call followed by n - 1 calls from the state it leaves |
| CursorProperties.WalkThenRestart | nodes/sampler.py:76-80 | under unchanged input a sequence at position p of k items is walked to its end in k - p calls, and the next call returns the first item of a freshly opened sequence left at position 1 |
| CursorProperties.FiniteSequenceCycles | nodes/sampler.py:77-80 | from any rebuilding call for a template with k >= 1 variants: calls 1..k return the variants in order, and call k+1 returns the first variant again from a fresh sequence left at position 1 (when the reopened sequence starts with the same variant) |
| CursorProperties.NoVariantsReturnEmpty | nodes/sampler.py:81-83 | a template that produces no prompt makes every call return `""`, never fail |
| CursorProperties.TwoVariantScenario | nodes/sampler.py:77-80 | a fresh node in combinatorial mode with two variants returns the first, the second, then the first again |
| Sampler.SamplerNode.constructor | nodes/sampler.py:35-48 | a new node has no mode, no template, no sequence and an empty reseed log, and satisfies the invariant |
| Sampler.SamplerNode.InitialiseWildcardManager | nodes/sampler.py:40-48 | the template is forgotten (`_current_prompt = None`) |
| Sampler.SamplerNode.SamplePrompts | nodes/sampler.py:121 | `sample_prompts` returns a fresh sequence bound to (template, mode) with nothing drawn |
| Sampler.SamplerNode.GetNextPrompt | nodes/sampler.py:71-83 | advancing the node's own sequence in place leaves exactly the fields `Cursor.NextPrompt` computes and returns its outcome |
| Sampler.SamplerNode.GetPrompt | nodes/sampler.py:103-134 | the new fields and the result are those of `Cursor.GetPrompt`; the invariant is kept; a reseed with (mode, seed) is logged exactly when `seed > 0`, whether or not the template is blank |

## Left out

- `_find_wildcards_folder` (nodes/sampler.py:50-69): a host file-system lookup and `mkdir`.
- The `WildcardManager` set-up and `clear_cache` in `_initialise_wildcard_manager`: these are external library state. Only the `_current_prompt = None` reset is kept.
- `context()` and `sample_prompts`, the library's template grammar and sampling: these are replaced by the abstract `Engine`.
- Modes other than `random` and `combinatorial`: `context()` returns `None` for them, and the `Mode` type excludes them.
- The effect of `rand.seed(seed)`: it seeds a freshly built context that is discarded at once, so each reseed is only a ghost log entry.
- `INPUT_TYPES` and `IS_CHANGED` (the latter returns NaN): host schema glue, and so no fingerprint function is modelled.
- `print` and `logger` calls: diagnostics only.
- nodes/sampler_batch.py: torch and CLIP encoding, and a loop of `get_prompt` calls that passes "Yes"/"No" as the mode, which `context()` does not handle.
- nodes/__init__.py (host registration) and nodes/random.py (an empty subclass).
- Sampler.SamplerNode.GetNextPrompt: the generator object is a value. Advancing it in place is modelled as storing the advanced value back into `prompts`. This is exact because the argument is always the node's own `_prompts` (its requires) and no other reference to it is used.
- The `issued` counter is not a source field. It is the model's way to tell the sequence objects apart.
- Exceptions of the library other than `StopIteration` and `RuntimeError` from `next()`, such as an error on a malformed template: the engine has no step for them and `sample_prompts` cannot fail in the model. Such an error would escape from line 76, 78 or 121. At line 121 it comes after line 120 has already set `_current_prompt = text`, so the node would keep the new text with the previous template's sequence, and the next call with the same text would draw from that old sequence. The model does not capture this state.
- CursorProperties.RaisesOnlyOnRetryFault: "a call fails only on a retry `RuntimeError`" holds for the modelled steps only, not for the exceptions of the previous line.
- `get_prompt` returns a one-element tuple; the model returns its single element.
- `str(new_prompt)`: the engine's items are strings already, so the coercion is the identity.
