/** What a request asks of one vault, as the commit loop sends it. */
module Plans {
  import opened Schema

  datatype PlanError = NoKey | MissingGroup(externalId: string) | OwnAncestor

  /** Plaintext edits for one vault. */
  datatype Plan = Plan(changes: seq<(Id, Payload)>, deletes: seq<Id>)
  {
    predicate IsEmpty() { changes == [] && deletes == [] }
  }

  /** The payloads a list of changes leaves behind: the last one written wins. */
  function PutsOf(changes: seq<(Id, Payload)>): map<Id, Payload> {
    if changes == [] then map[]
    else PutsOf(changes[..|changes| - 1])[changes[|changes| - 1].0 := changes[|changes| - 1].1]
  }

  function DropsOf(deletes: seq<Id>): set<Id> { set id | id in deletes }

  lemma PutsOfAppend(changes: seq<(Id, Payload)>, id: Id, p: Payload)
    ensures PutsOf(changes + [(id, p)]) == PutsOf(changes)[id := p]
  {
    assert (changes + [(id, p)])[..|changes|] == changes;
  }
}
