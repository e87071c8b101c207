/** The per-request state machine of src/core/sequence.hpp. */
module Sequences {
  import opened Wrappers

  datatype Phase = Prefill | Decode | Finished

  /** The table of legal transitions. */
  predicate Legal(from: Phase, to: Phase) {
    match from
    case Prefill => true
    case Decode => to != Prefill
    case Finished => to == Finished
  }

  /** The order of the phases. */
  function Rank(p: Phase): nat { match p case Prefill => 0 case Decode => 1 case Finished => 2 }

  /** The table allows exactly the transitions that do not go back. */
  lemma NeverBack(from: Phase, to: Phase)
    ensures Legal(from, to) <==> Rank(from) <= Rank(to)
  {}

  /** A snapshot of one sequence. */
  datatype Sequence = Sequence(
    id: nat,
    phase: Phase,
    prompt: seq<nat>,
    generated: seq<nat>,
    maxNew: nat,
    cursor: nat)
  {
    predicate PrefillComplete() { cursor >= |prompt| }

    function TotalTokens(): nat { |prompt| + |generated| }

    /** How many tokens are generated before the sequence finishes: the limit is checked only
        after a token was generated, so a limit of zero still yields one. */
    function Target(): nat { if maxNew == 0 then 1 else maxNew }

    /** Tokens still to be prefilled or generated. */
    function Remaining(): int { |prompt| - cursor + Target() - |generated| }
  }

  /** A sequence as its constructor leaves it. */
  predicate Fresh(s: Sequence) {
    s.phase == Prefill && s.generated == [] && s.cursor == 0
  }

  const PLACEHOLDER: nat := 0xFFFF_FFFF

  datatype IllegalTransition = IllegalTransition(from: Phase, to: Phase)

  /** The transition, or the error it throws. */
  function TransitionTo(s: Sequence, next: Phase): Result<Sequence, IllegalTransition> {
    if Legal(s.phase, next) then Ok(s.(phase := next)) else Err(IllegalTransition(s.phase, next))
  }
}
