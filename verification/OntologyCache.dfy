/** The per-group ontology cache: its slots, how drift is computed against the sidecar, and the
  * cache's methods. Each method takes the lock per access; what other threads do while it is
  * released is arbitrary here, and is the subject of module `OntologyRaces`. */
module OntologyCache {
  import opened Common

  type GroupId = string

  /** An ontology, as its content hash. */
  type Hash = string

  /** The hash that stands for having no ontology. */
  const NO_ONTOLOGY: Hash := "none"

  /** What the identity-set check found; it may be unable to run. */
  datatype Check = Checked(refused: bool) | Unchecked

  datatype Entry = Entry(ontology: Hash, drifted: bool, refused: bool)

  datatype Slot = Absent | Resolving | Resolved(entry: Entry)
  {
    predicate Drifted() {
      Resolved? && entry.drifted
    }
  }

  /** `compute_drift_from_sidecar`. Without a sidecar, an ontology over data that predates it is
    * drift. */
  predicate DriftAgainst(sidecar: Option<Hash>, ontology: Hash, hasPriorData: bool) {
    if sidecar.None? then hasPriorData && ontology != NO_ONTOLOGY
    else sidecar.value != ontology
  }

  /** What `insert_group_ontology_entry_if_not_resolved` leaves in the slot. */
  function Inserted(slot: Slot, entry: Entry): Slot {
    if slot.Resolved? then slot else Resolved(entry)
  }

  function Marked(slot: Slot): Slot {
    if slot.Absent? then Resolving else slot
  }

  /** One locked round of the clear loop: what it leaves in the slot, and whether it is done or must
    * release the lock to run the identity check. */
  datatype Round = Finished(slot: Slot) | MustCheck

  function ClearRound(slot: Slot, ontology: Hash, identity: Option<Check>): Round {
    match slot
    case Absent => Finished(Absent)
    case Resolved(e) => Finished(Resolved(e.(drifted := false)))
    case Resolving =>
      (match identity
       case None => MustCheck
       case Some(Checked(refused)) => Finished(Resolved(Entry(ontology, false, refused)))
       case Some(Unchecked) => Finished(Resolving))
  }

  /** A clear never fills an absent slot, never leaves drift cached, and never drops a verdict; it asks for
    * the identity check only when a resolution is under way and the check has not run yet. */
  lemma ClearRoundClears(slot: Slot, ontology: Hash, identity: Option<Check>)
    ensures var r := ClearRound(slot, ontology, identity);
            && (r.MustCheck? <==> slot.Resolving? && identity.None?)
            && (r.Finished? ==>
                  && !r.slot.Drifted()
                  && (r.slot.Absent? <==> slot.Absent?)
                  && (slot.Resolved? ==> r.slot == Resolved(slot.entry.(drifted := false)))
                  && (r.slot.Resolving? <==> slot.Resolving? && identity == Some(Unchecked))
                  && (slot.Resolving? && r.slot.Resolved? ==>
                        identity.value.Checked? && r.slot.entry == Entry(ontology, false, identity.value.refused)))
  {
  }

  /** What a first resolution reads from outside the cache. */
  datatype Outside = Outside(ontology: Hash, sidecar: Option<Hash>, hasPriorData: bool, check: Check)

  datatype Outcome = Outcome(
    previous: Option<Hash>, hash: Hash, drifted: bool, refused: bool, unchecked: bool)

  class GroupOntologies {
    var slots: map<GroupId, Slot>

    function At(group: GroupId): Slot
      reads this
    {
      if group in slots then slots[group] else Absent
    }

    /** An absent group has no slot. */
    ghost predicate Valid()
      reads this
    {
      forall group <- slots :: !slots[group].Absent?
    }

    constructor ()
      ensures Valid() && slots == map[]
    {
      slots := map[];
    }

    method MarkGroupResolving(group: GroupId)
      requires Valid()
      modifies this
      ensures Valid() && slots == old(slots)[group := Marked(old(At(group)))]
      ensures slots == if group in old(slots) then old(slots) else old(slots)[group := Resolving]
    {
      if group !in slots {
        slots := slots[group := Resolving];
      } else {
        assert slots == slots[group := Marked(slots[group])];
      }
    }

    method InsertIfNotResolved(group: GroupId, entry: Entry) returns (won: bool)
      requires Valid()
      modifies this
      ensures Valid() && slots == old(slots)[group := Inserted(old(At(group)), entry)]
      ensures won <==> !old(At(group)).Resolved?
      ensures slots == if won then old(slots)[group := Resolved(entry)] else old(slots)
    {
      won := !At(group).Resolved?;
      if won {
        slots := slots[group := Resolved(entry)];
      } else {
        assert slots == slots[group := Inserted(slots[group], entry)];
      }
    }

    method InvalidateGroupOntology(group: GroupId)
      requires Valid()
      modifies this
      ensures Valid() && slots == old(slots) - {group}
    {
      slots := slots - {group};
    }

    /** Any change whatever by threads that take the lock in between. */
    method Interfere()
      requires Valid()
      modifies this
      ensures Valid()
    {
      var others: map<GroupId, Slot> := *;
      slots := map group: GroupId | group in others && !others[group].Absent? :: others[group];
    }

    /** `clear_group_drift`: whatever interferes while the lock is released, the loop takes at most two
      * rounds, and its last round acts on the slot as found under the lock. `found` is the map then. */
    method ClearGroupDrift(group: GroupId, ontology: Hash, check: Check)
      returns (rounds: nat, ghost found: map<GroupId, Slot>)
      requires Valid()
      modifies this
      ensures Valid() && 1 <= rounds <= 2
      ensures group !in found ==> slots == found
      ensures group in found ==>
                exists identity: Option<Check> ::
                  && (rounds == 1 <==> identity.None?) && (identity.Some? ==> identity.value == check)
                  && ClearRound(found[group], ontology, identity).Finished?
                  && slots == found[group := ClearRound(found[group], ontology, identity).slot]
      ensures !At(group).Drifted()
    {
      var identity: Option<Check> := None;
      rounds := 0;
      while true
        invariant Valid() && rounds <= 1
        invariant rounds == 0 <==> identity.None?
        invariant identity.Some? ==> identity.value == check
        decreases 1 - rounds
      {
        Interfere();
        rounds := rounds + 1;
        found := slots;
        if group !in slots {
          return;
        }
        match slots[group] {
          case Absent =>
            assert false;
          case Resolved(e) =>
            slots := slots[group := Resolved(e.(drifted := false))];
            assert ClearRound(found[group], ontology, identity).slot == slots[group];
            return;
          case Resolving =>
            match identity {
              case None =>
                identity := Some(check);
              case Some(c) =>
                if c.Checked? {
                  slots := slots[group := Resolved(Entry(ontology, false, c.refused))];
                }
                assert slots == found[group := ClearRound(found[group], ontology, identity).slot];
                return;
            }
        }
      }
    }

    /** `resolve_and_cache` when no other thread touches the group. With a sidecar the ontology has drifted
      * if the recorded hash is another one; without a sidecar, if there is prior data and any ontology at
      * all. A resolved slot is left alone, and a check that cannot run resolves nothing. */
    method ResolveAndCache(group: GroupId, now: Outside) returns (entry: Entry)
      requires Valid()
      modifies this
      ensures Valid()
      ensures entry.ontology == now.ontology && (entry.refused <==> now.check == Checked(true))
      ensures now.sidecar.Some? ==> (entry.drifted <==> now.sidecar.value != now.ontology)
      ensures now.sidecar.None? ==> (entry.drifted <==> now.hasPriorData && now.ontology != "none")
      ensures now.check.Checked? && !old(At(group)).Resolved? ==> slots == old(slots)[group := Resolved(entry)]
      ensures now.check.Unchecked? && old(At(group)).Absent? ==> slots == old(slots)[group := Resolving]
      ensures old(At(group)).Resolved? || (now.check.Unchecked? && !old(At(group)).Absent?) ==> slots == old(slots)
    {
      MarkGroupResolving(group);
      entry := Entry(now.ontology, DriftAgainst(now.sidecar, now.ontology, now.hasPriorData),
                     now.check.Checked? && now.check.refused);
      if now.check.Unchecked? {
        return;
      }
      var _ := InsertIfNotResolved(group, entry);
    }

    /** `reload_group_ontology`: a reload that finds the same ontology, or whose identity check cannot
      * run, leaves the cache exactly as it was; any other replaces the group's entry, drift and
      * verdict included, and no other group's. */
    method ReloadGroupOntology(group: GroupId, now: Outside) returns (r: Outcome)
      requires Valid()
      modifies this
      ensures Valid()
      ensures r.previous == if old(At(group)).Resolved? then Some(old(At(group)).entry.ontology) else None
      ensures r.hash == now.ontology
      ensures r.previous == Some(now.ontology) ==>
                slots == old(slots) && !r.unchecked
                && Entry(r.hash, r.drifted, r.refused) == old(At(group)).entry
      ensures r.previous != Some(now.ontology) ==>
                && r.unchecked == now.check.Unchecked?
                && (now.sidecar.Some? ==> (r.drifted <==> now.sidecar.value != now.ontology))
                && (now.sidecar.None? ==> (r.drifted <==> now.hasPriorData && now.ontology != "none"))
                && (r.refused <==> now.check == Checked(true))
                && slots == if r.unchecked then old(slots)
                            else old(slots)[group := Resolved(Entry(r.hash, r.drifted, r.refused))]
    {
      var snapshot := At(group);
      var previous := if snapshot.Resolved? then Some(snapshot.entry.ontology) else None;
      if snapshot.Resolved? && now.ontology == snapshot.entry.ontology {
        return Outcome(previous, now.ontology, snapshot.entry.drifted, snapshot.entry.refused, false);
      }
      InvalidateGroupOntology(group);
      var computed := ResolveAndCache(group, now);
      if now.check.Unchecked? {
        slots := if snapshot.Absent? then slots - {group} else slots[group := snapshot];
        assert slots == old(slots);
        return Outcome(previous, now.ontology, computed.drifted, false, true);
      }
      var entry := if At(group).Resolved? then At(group).entry else computed;
      r := Outcome(previous, entry.ontology, entry.drifted, entry.refused, false);
    }
  }
}
