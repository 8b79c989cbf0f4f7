/**
  Whom a group call rings: one target per roster entry that shares no identity with this account or
  with an earlier entry.
 */
module CallTargets {
  import opened Common

  datatype Jid = Jid(user: string, agent: nat, device: nat, integrator: nat, server: string) {
    /** The identity without agent and device. */
    function ToNonAD(): Jid {
      Jid(user, 0, 0, integrator, server)
    }

    predicate IsEmpty() {
      server == ""
    }
  }

  /** Users are told apart by user, integrator and server, not by agent or device. */
  predicate SameUser(a: Jid, b: Jid) {
    a.user == b.user && a.integrator == b.integrator && a.server == b.server
  }

  lemma SameUserExactly(a: Jid, b: Jid)
    ensures a.ToNonAD() == b.ToNonAD() <==> SameUser(a, b)
    ensures SameUser(a.ToNonAD(), a) && a.ToNonAD().agent == 0 && a.ToNonAD().device == 0
  {
  }

  datatype Participant = Participant(jid: Jid, phoneNumber: Jid, lid: Jid)

  function Identities(p: Participant): (ids: seq<Jid>)
    ensures |ids| == 3
  {
    [p.jid.ToNonAD(), p.phoneNumber.ToNonAD(), p.lid.ToNonAD()]
  }

  function NonEmpty(ids: seq<Jid>): set<Jid> {
    set id | id in ids && !id.IsEmpty()
  }

  /** The identities a participant is known by. */
  function Known(p: Participant): set<Jid> {
    NonEmpty(Identities(p))
  }

  function Own(self: seq<Jid>): set<Jid> {
    set id | id in self && !id.ToNonAD().IsEmpty() :: id.ToNonAD()
  }

  /** Everything known before the k-th participant's turn. */
  function Before(participants: seq<Participant>, self: seq<Jid>, k: nat): set<Jid>
    requires k <= |participants|
  {
    if k == 0 then Own(self) else Before(participants, self, k - 1) + Known(participants[k - 1])
  }

  predicate Rings(participants: seq<Participant>, self: seq<Jid>, k: nat)
    requires k < |participants|
  {
    Known(participants[k]) != {} && Known(participants[k]) !! Before(participants, self, k)
  }

  /** The first non-empty identity. */
  function FirstOf(ids: seq<Jid>): Jid
    requires NonEmpty(ids) != {}
  {
    if !ids[0].IsEmpty() then ids[0] else assert NonEmpty(ids) == NonEmpty(ids[1..]); FirstOf(ids[1..])
  }

  /** Those who ring among the first k, by position. */
  function Ringing(participants: seq<Participant>, self: seq<Jid>, k: nat): seq<nat>
    requires k <= |participants|
  {
    if k == 0 then []
    else Ringing(participants, self, k - 1) + if Rings(participants, self, k - 1) then [k - 1] else []
  }

  /** Rings each chosen participant, in roster order, by its first identity. */
  method RemoteGroupCallTargets(participants: seq<Participant>, self: seq<Jid>) returns (targets: seq<Jid>)
    ensures var chosen := Ringing(participants, self, |participants|);
            |targets| == |chosen| &&
            forall i :: 0 <= i < |chosen| ==>
              chosen[i] < |participants| && Known(participants[chosen[i]]) != {}
              && targets[i] == FirstOf(Identities(participants[chosen[i]]))
              && Addresses(targets[i], participants[chosen[i]])
    ensures forall i, j :: 0 <= i < |targets| && 0 <= j < |self| && self[j].server != "" ==>
              !SameUser(targets[i], self[j])
    ensures forall i, j :: 0 <= i < j < |targets| ==> !SameUser(targets[i], targets[j])
  {
    var seen: set<Jid> := {};
    for i := 0 to |self|
      invariant seen == Own(self[..i])
    {
      var jid := self[i].ToNonAD();
      if !jid.IsEmpty() {
        seen := seen + {jid};
      }
    }
    assert self[..|self|] == self;
    targets := [];
    for k := 0 to |participants|
      invariant seen == Before(participants, self, k)
      invariant |targets| == |Ringing(participants, self, k)|
      invariant forall i :: 0 <= i < |targets| ==>
                  var j := Ringing(participants, self, k)[i];
                  j < k && Known(participants[j]) != {} && targets[i] == FirstOf(Identities(participants[j]))
    {
      var identities := Identities(participants[k]);
      var duplicate := Meets(identities, seen);
      seen := Noted(identities, seen);
      if duplicate {
        continue;
      }
      var target := FirstNonEmpty(identities);
      if target.None? {
        continue;
      }
      targets := targets + [target.value];
    }
    TargetsDiffer(participants, self, targets);
  }

  /** The account's number if it has a server, else the phone number, else the LID, without agent
      and device. */
  predicate Addresses(target: Jid, p: Participant) {
    && target.server != "" && target.agent == 0 && target.device == 0
    && (if p.jid.server != "" then SameUser(target, p.jid)
        else if p.phoneNumber.server != "" then SameUser(target, p.phoneNumber)
        else SameUser(target, p.lid))
  }

  lemma FirstAddresses(p: Participant)
    requires Known(p) != {}
    ensures Addresses(FirstOf(Identities(p)), p) && FirstOf(Identities(p)) in Known(p)
  {
    var ids := Identities(p);
    assert ids[1..] == [ids[1], ids[2]] && ids[1..][1..] == [ids[2]];
    var id :| id in Known(p);
    if ids[0].IsEmpty() {
      assert NonEmpty(ids) == NonEmpty(ids[1..]);
      if ids[1].IsEmpty() {
        assert NonEmpty(ids[1..]) == NonEmpty([ids[2]]);
        assert FirstOf(ids) == FirstOf([ids[2]]);
      }
    }
  }

  lemma TargetsDiffer(participants: seq<Participant>, self: seq<Jid>, targets: seq<Jid>)
    requires var chosen := Ringing(participants, self, |participants|);
             |targets| == |chosen| &&
             forall i :: 0 <= i < |chosen| ==>
               chosen[i] < |participants| && Known(participants[chosen[i]]) != {}
               && targets[i] == FirstOf(Identities(participants[chosen[i]]))
    ensures var chosen := Ringing(participants, self, |participants|);
            forall i :: 0 <= i < |targets| ==> Addresses(targets[i], participants[chosen[i]])
    ensures forall i, j :: 0 <= i < |targets| && 0 <= j < |self| && self[j].server != "" ==>
              !SameUser(targets[i], self[j])
    ensures forall i, j :: 0 <= i < j < |targets| ==> !SameUser(targets[i], targets[j])
  {
    var chosen := Ringing(participants, self, |participants|);
    ChosenAreDisjoint(participants, self);
    hide Known, Addresses, Identities, Ringing;
    forall i | 0 <= i < |targets|
      ensures Addresses(targets[i], participants[chosen[i]]) && targets[i] in Known(participants[chosen[i]])
    {
      FirstAddresses(participants[chosen[i]]);
    }
    forall i, j | 0 <= i < |targets| && 0 <= j < |self| && self[j].server != ""
      ensures !SameUser(targets[i], self[j])
    {
      TargetIsNormal(targets[i], participants[chosen[i]]);
      assert self[j].ToNonAD() in Own(self);
    }
    forall i, j | 0 <= i < j < |targets| ensures !SameUser(targets[i], targets[j]) {
      TargetIsNormal(targets[i], participants[chosen[i]]);
      TargetIsNormal(targets[j], participants[chosen[j]]);
    }
  }

  lemma TargetIsNormal(target: Jid, p: Participant)
    requires Addresses(target, p)
    ensures target.ToNonAD() == target
  {
  }

  /** The identities a participant is known by are those of its three numbers that have a server. */
  lemma KnownExactly(p: Participant, id: Jid)
    ensures id in Known(p) <==>
            && id.server != "" && id.agent == 0 && id.device == 0
            && (SameUser(id, p.jid) || SameUser(id, p.phoneNumber) || SameUser(id, p.lid))
  {
    assert Identities(p)[0] == p.jid.ToNonAD() && Identities(p)[1] == p.phoneNumber.ToNonAD()
           && Identities(p)[2] == p.lid.ToNonAD();
  }

  method Meets(identities: seq<Jid>, seen: set<Jid>) returns (duplicate: bool)
    ensures duplicate == !(NonEmpty(identities) !! seen)
  {
    for i := 0 to |identities|
      invariant NonEmpty(identities[..i]) !! seen
    {
      if !identities[i].IsEmpty() && identities[i] in seen {
        assert identities[i] in NonEmpty(identities);
        return true;
      }
    }
    assert identities[..|identities|] == identities;
    return false;
  }

  method Noted(identities: seq<Jid>, seen: set<Jid>) returns (seen': set<Jid>)
    ensures seen' == seen + NonEmpty(identities)
  {
    seen' := seen;
    for i := 0 to |identities|
      invariant seen' == seen + NonEmpty(identities[..i])
    {
      if !identities[i].IsEmpty() {
        seen' := seen' + {identities[i]};
      }
    }
    assert identities[..|identities|] == identities;
  }

  method FirstNonEmpty(identities: seq<Jid>) returns (target: Option<Jid>)
    ensures target.None? <==> NonEmpty(identities) == {}
    ensures NonEmpty(identities) != {} ==> target == Some(FirstOf(identities))
  {
    assert identities[0..] == identities;
    for i := 0 to |identities|
      invariant NonEmpty(identities[..i]) == {} && NonEmpty(identities) == NonEmpty(identities[i..])
      invariant NonEmpty(identities) != {} ==> FirstOf(identities) == FirstOf(identities[i..])
    {
      if !identities[i].IsEmpty() {
        assert identities[i] in NonEmpty(identities);
        return Some(identities[i]);
      }
      assert identities[i..][1..] == identities[i + 1..];
    }
    return None;
  }

  // ----- what the choice guarantees -----

  lemma {:induction false} BeforeHas(participants: seq<Participant>, self: seq<Jid>, k: nat, j: nat)
    requires j < k <= |participants|
    ensures Known(participants[j]) <= Before(participants, self, k) && Own(self) <= Before(participants, self, k)
  {
    if k > 1 && j < k - 1 {
      BeforeHas(participants, self, k - 1, j);
    } else if k > 1 {
      BeforeHas(participants, self, k - 1, 0);
    }
  }

  lemma {:induction false} RingingOnes(participants: seq<Participant>, self: seq<Jid>, k: nat)
    requires k <= |participants|
    ensures forall i :: 0 <= i < |Ringing(participants, self, k)| ==>
              Ringing(participants, self, k)[i] < k && Rings(participants, self, Ringing(participants, self, k)[i])
    ensures forall i, j :: 0 <= i < j < |Ringing(participants, self, k)| ==>
              Ringing(participants, self, k)[i] < Ringing(participants, self, k)[j]
    ensures forall j :: 0 <= j < k && Rings(participants, self, j) ==> j in Ringing(participants, self, k)
  {
    if k > 0 {
      RingingOnes(participants, self, k - 1);
    }
  }

  /** Nobody is rung twice and this account is not rung at all: in roster order, those chosen have
      identities disjoint from each other's and from its own. */
  lemma ChosenAreDisjoint(participants: seq<Participant>, self: seq<Jid>)
    ensures var chosen := Ringing(participants, self, |participants|);
            && (forall i :: 0 <= i < |chosen| ==>
                  && chosen[i] < |participants| && Known(participants[chosen[i]]) != {}
                  && Known(participants[chosen[i]]) !! Own(self))
            && (forall i, j :: 0 <= i < j < |chosen| ==>
                  chosen[i] < chosen[j] && Known(participants[chosen[i]]) !! Known(participants[chosen[j]]))
  {
    var chosen := Ringing(participants, self, |participants|);
    RingingOnes(participants, self, |participants|);
    forall i | 0 <= i < |chosen|
      ensures Known(participants[chosen[i]]) != {} && Known(participants[chosen[i]]) !! Own(self)
    {
      if chosen[i] > 0 {
        BeforeHas(participants, self, chosen[i], 0);
      }
    }
    forall i, j | 0 <= i < j < |chosen|
      ensures Known(participants[chosen[i]]) !! Known(participants[chosen[j]])
    {
      BeforeHas(participants, self, chosen[j], chosen[i]);
    }
  }

  predicate Share(a: set<Jid>, b: set<Jid>) {
    exists id :: id in a && id in b
  }

  /** A chain of shared identities from a participant to someone rung, or to this account. */
  ghost predicate Chain(participants: seq<Participant>, self: seq<Jid>, path: seq<nat>) {
    && path != []
    && (forall i :: 0 <= i < |path| ==> path[i] < |participants|)
    && (forall i :: 0 <= i < |path| - 1 ==> Share(Known(participants[path[i]]), Known(participants[path[i + 1]])))
    && var last := path[|path| - 1];
       Rings(participants, self, last) || Share(Known(participants[last]), Own(self))
  }

  lemma {:induction false} MetBefore(participants: seq<Participant>, self: seq<Jid>, k: nat, id: Jid)
    returns (j: Option<nat>)
    requires k <= |participants| && id in Before(participants, self, k)
    ensures j.None? ==> id in Own(self)
    ensures j.Some? ==> j.value < k && id in Known(participants[j.value])
  {
    if k == 0 {
      return None;
    }
    if id in Known(participants[k - 1]) {
      return Some(k - 1);
    }
    j := MetBefore(participants, self, k - 1, id);
  }

  /** Nobody with an identity is left out for no reason: a chain of shared identities leads from
      every participant to one that is rung, or to this account. */
  lemma {:induction false} EveryoneIsReached(participants: seq<Participant>, self: seq<Jid>, k: nat)
    returns (path: seq<nat>)
    requires k < |participants| && Known(participants[k]) != {}
    ensures Chain(participants, self, path) && path[0] == k
    decreases k
  {
    if Rings(participants, self, k) {
      return [k];
    }
    var id :| id in Known(participants[k]) && id in Before(participants, self, k);
    var j := MetBefore(participants, self, k, id);
    if j.None? {
      assert Share(Known(participants[k]), Own(self));
      return [k];
    }
    var rest := EveryoneIsReached(participants, self, j.value);
    assert Share(Known(participants[k]), Known(participants[j.value]));
    path := [k] + rest;
    assert forall i :: 0 < i < |path| ==> path[i] == rest[i - 1];
  }
}
