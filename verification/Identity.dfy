/** Minting the handle of a joining participant. */
module Identity {
  import opened Wrappers

  datatype HandleOutcome = Reused(handle: string) | Created(handle: string)

  /** What the listing of a room says of a participant. */
  datatype Listed = Listed(handle: string, instance: string)

  function Candidate(prefix: string, sess: string): string {
    prefix + "-" + sess
  }

  /** The first candidate whose handle is free; when none is, the last one, or the bare prefix. */
  function Mint(prefix: string, taken: set<string>, candidates: seq<string>): string {
    if candidates == [] then prefix
    else if Candidate(prefix, candidates[0]) !in taken || |candidates| == 1 then Candidate(prefix, candidates[0])
    else Mint(prefix, taken, candidates[1..])
  }

  /** `byInstance` is the handle of the row that already has the caller's instance. */
  function DeriveHandle(prefix: string, byInstance: Option<string>, taken: set<string>, candidates: seq<string>)
    : HandleOutcome
  {
    match byInstance
    case Some(h) => Reused(h)
    case None => Created(Mint(prefix, taken, candidates))
  }

  function FirstWith(existing: seq<Listed>, instance: string): Option<string> {
    if existing == [] then None
    else if existing[0].instance == instance then Some(existing[0].handle)
    else FirstWith(existing[1..], instance)
  }

  /** The loop over the candidate suffixes. */
  method Derive(prefix: string, existing: seq<Listed>, instance: string, candidates: seq<string>)
    returns (outcome: HandleOutcome)
    ensures outcome == DeriveHandle(prefix, FirstWith(existing, instance), set p <- existing :: p.handle, candidates)
  {
    for i := 0 to |existing|
      invariant FirstWith(existing, instance) == FirstWith(existing[i..], instance)
    {
      if existing[i].instance == instance {
        return Reused(existing[i].handle);
      }
    }
    var taken := set p <- existing :: p.handle;
    var last: Option<string> := None;
    for i := 0 to |candidates|
      invariant last.Some? <==> i > 0
      invariant i < |candidates| ==> Mint(prefix, taken, candidates) == Mint(prefix, taken, candidates[i..])
      invariant i > 0 && i == |candidates| ==> Some(Mint(prefix, taken, candidates)) == last
    {
      var candidate := Candidate(prefix, candidates[i]);
      if candidate !in taken {
        return Created(candidate);
      }
      last := Some(candidate);
    }
    outcome := Created(if last.Some? then last.value else prefix);
  }

  /** When any candidate is free, the minted handle is: it is the first free one. */
  lemma {:induction false} MintsTheFirstFree(prefix: string, taken: set<string>, candidates: seq<string>, i: nat)
    requires i < |candidates| && Candidate(prefix, candidates[i]) !in taken
    requires forall j :: 0 <= j < i ==> Candidate(prefix, candidates[j]) in taken
    ensures Mint(prefix, taken, candidates) == Candidate(prefix, candidates[i])
    ensures Mint(prefix, taken, candidates) !in taken
  {
    if i > 0 { MintsTheFirstFree(prefix, taken, candidates[1..], i - 1); }
  }
}
