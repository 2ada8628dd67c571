/**
 Trust on first use: `confirm_lan_device` of src/client.rs and the store of pinned fingerprints.
 Endpoint parsing, key hashing and writing the configuration are foreign; a visit carries their results.
 */
module TrustStore {
  import opened Common

  /** Authority to pinned fingerprint. */
  type Store = map<string, string>

  datatype Input = Trust | Reject | Close | Unrelated

  /** One call: the parsed authority (None if the endpoint is invalid), the fingerprint the device presents,
      the messages the user interface delivers, and whether the configuration can be written. */
  datatype Visit = Visit(authority: Option<string>, fingerprint: string, inputs: seq<Input>, canSave: bool)

  // ---------------------------------------------------------------------------
  // Specification
  // ---------------------------------------------------------------------------

  /** The user's first answer is Trust: nothing but unrelated messages came before it. */
  predicate SaysTrust(inputs: seq<Input>) {
    exists i :: 0 <= i < |inputs| && inputs[i] == Trust && forall j :: 0 <= j < i ==> inputs[j] == Unrelated
  }

  predicate Pinned(s: Store, authority: string, fingerprint: string) {
    authority in s && s[authority] == fingerprint
  }

  /** The device is known under another endpoint and this endpoint is new: no question is asked. */
  predicate KnownElsewhere(s: Store, v: Visit) {
    v.authority.Some? && v.authority.value !in s && v.fingerprint in s.Values
  }

  /** The user was asked and explicitly approved. */
  predicate Approves(s: Store, v: Visit) {
    && v.authority.Some?
    && !Pinned(s, v.authority.value, v.fingerprint)
    && !KnownElsewhere(s, v)
    && SaysTrust(v.inputs)
  }

  predicate Confirmed(s: Store, v: Visit) {
    v.authority.Some? &&
    (Pinned(s, v.authority.value, v.fingerprint) || ((KnownElsewhere(s, v) || Approves(s, v)) && v.canSave))
  }

  function Step(s: Store, v: Visit): Store {
    if Confirmed(s, v) then s[v.authority.value := v.fingerprint] else s
  }

  function Exec(s: Store, vs: seq<Visit>): Store {
    if vs == [] then s else Step(Exec(s, vs[..|vs| - 1]), vs[|vs| - 1])
  }

  // ---------------------------------------------------------------------------
  // What one visit can do
  // ---------------------------------------------------------------------------

  /** Without Trust among its messages a visit pins nothing, except a new endpoint of a device that is already stored. */
  lemma NothingPinnedWithoutTrust(s: Store, v: Visit)
    requires Trust !in v.inputs
    ensures Step(s, v) == s || (v.authority.Some? && v.authority.value !in s && v.fingerprint in s.Values)
  {
    if Confirmed(s, v) && Pinned(s, v.authority.value, v.fingerprint) {
      assert s[v.authority.value := v.fingerprint] == s;
    }
  }

  /** An answer of Reject or Close before any Trust leaves a device that the user is asked about unconfirmed. */
  lemma RefusalStands(s: Store, v: Visit, n: nat)
    requires n < |v.inputs| && (v.inputs[n] == Reject || v.inputs[n] == Close)
    requires forall j :: 0 <= j < n ==> v.inputs[j] != Trust
    requires v.authority.Some? ==>
               if v.authority.value in s then s[v.authority.value] != v.fingerprint else v.fingerprint !in s.Values
    ensures !Confirmed(s, v) && Step(s, v) == s
  {
  }

  /** An answer of Trust before any other answer pins the endpoint to what the device presents. */
  lemma TrustIsHonoured(s: Store, v: Visit, n: nat)
    requires v.authority.Some? && v.canSave && n < |v.inputs| && v.inputs[n] == Trust
    requires forall j :: 0 <= j < n ==> v.inputs[j] == Unrelated
    ensures Confirmed(s, v)
    ensures v.authority.value in Step(s, v) && Step(s, v)[v.authority.value] == v.fingerprint
  {
  }

  /** A device pinned to what it presents, or known under another endpoint, is confirmed without any message. */
  lemma KnownDeviceNeedsNoAnswer(s: Store, v: Visit)
    requires v.authority.Some?
    requires if v.authority.value in s then s[v.authority.value] == v.fingerprint
             else v.fingerprint in s.Values && v.canSave
    ensures Confirmed(s, v.(inputs := []))
    ensures var s' := Step(s, v.(inputs := []));
            v.authority.value in s' && s'[v.authority.value] == v.fingerprint
  {
  }

  /** No visit touches the pin of another endpoint. */
  lemma OtherPinsStay(s: Store, v: Visit, authority: string)
    requires v.authority != Some(authority)
    ensures authority in Step(s, v) <==> authority in s
    ensures authority in s ==> Step(s, v)[authority] == s[authority]
  {
  }

  // ---------------------------------------------------------------------------
  // Provenance over every run
  // ---------------------------------------------------------------------------

  /**
   At step `i` of the run from the empty store the device presented `fingerprint`, the endpoint was not pinned to it,
   and the first answer among the user's messages was Trust.
   */
  ghost predicate ApprovedAt(vs: seq<Visit>, i: nat, fingerprint: string)
    requires i < |vs|
  {
    && Approves(Exec(map[], vs[..i]), vs[i]) && vs[i].canSave && vs[i].fingerprint == fingerprint
    && exists n :: 0 <= n < |vs[i].inputs| && vs[i].inputs[n] == Trust
                   && forall j :: 0 <= j < n ==> vs[i].inputs[j] == Unrelated
  }

  lemma ApprovalStays(vs: seq<Visit>, v: Visit, i: nat, fingerprint: string)
    requires i < |vs| && ApprovedAt(vs, i, fingerprint)
    ensures ApprovedAt(vs + [v], i, fingerprint)
  {
    assert (vs + [v])[..i] == vs[..i];
  }

  /** Every stored fingerprint was explicitly approved by the user at some earlier step. */
  lemma {:induction false} EveryPinWasApproved(vs: seq<Visit>, authority: string)
    requires authority in Exec(map[], vs)
    ensures exists i :: 0 <= i < |vs| && ApprovedAt(vs, i, Exec(map[], vs)[authority])
    decreases |vs|
  {
    var n := |vs| - 1;
    var before, v := vs[..n], vs[n];
    var s := Exec(map[], before);
    var fingerprint := Exec(map[], vs)[authority];
    assert vs == before + [v];
    if Confirmed(s, v) && v.authority.value == authority && !Pinned(s, authority, v.fingerprint) {
      if Approves(s, v) {
        assert ApprovedAt(vs, n, fingerprint);
      } else {
        var other :| other in s && s[other] == v.fingerprint;
        EveryPinWasApproved(before, other);
        var i :| 0 <= i < |before| && ApprovedAt(before, i, fingerprint);
        ApprovalStays(before, v, i, fingerprint);
      }
    } else {
      EveryPinWasApproved(before, authority);
      var i :| 0 <= i < |before| && ApprovedAt(before, i, fingerprint);
      ApprovalStays(before, v, i, fingerprint);
    }
  }

  /** Step `i` of the run is the user's approval of `fingerprint` for `authority` itself. */
  ghost predicate RepinnedAt(vs: seq<Visit>, i: nat, authority: string, fingerprint: string)
    requires i < |vs|
  {
    ApprovedAt(vs, i, fingerprint) && vs[i].authority == Some(authority)
  }

  /** A pinned endpoint is never forgotten, and changes only by explicit approval for that very endpoint. */
  lemma {:induction false} PinChangesOnlyByApproval(vs: seq<Visit>, from: nat, authority: string)
    requires from <= |vs| && authority in Exec(map[], vs[..from])
    ensures authority in Exec(map[], vs)
    ensures Exec(map[], vs)[authority] != Exec(map[], vs[..from])[authority] ==>
              exists i :: from <= i < |vs| && RepinnedAt(vs, i, authority, Exec(map[], vs)[authority])
    decreases |vs|
  {
    if from == |vs| {
      assert vs[..from] == vs;
    } else {
      var n := |vs| - 1;
      var before, v := vs[..n], vs[n];
      assert vs == before + [v] && before[..from] == vs[..from];
      PinChangesOnlyByApproval(before, from, authority);
      var fingerprint := Exec(map[], vs)[authority];
      var s := Exec(map[], before);
      if s[authority] != fingerprint {
        assert Approves(s, v);
        assert RepinnedAt(vs, n, authority, fingerprint);
      } else if fingerprint != Exec(map[], vs[..from])[authority] {
        var i :| from <= i < |before| && RepinnedAt(before, i, authority, fingerprint);
        ApprovalStays(before, v, i, fingerprint);
        assert RepinnedAt(vs, i, authority, fingerprint);
      }
    }
  }

  // ---------------------------------------------------------------------------
  // The code
  // ---------------------------------------------------------------------------

  class Trusted {
    var store: Store

    constructor ()
      ensures store == map[]
    {
      store := map[];
    }

    /** `confirm_lan_device`: a true result pins the endpoint to the presented fingerprint, a false one changes nothing. */
    method ConfirmLanDevice(v: Visit) returns (ok: bool)
      modifies this
      ensures ok == Confirmed(old(store), v) && store == Step(old(store), v)
      ensures ok ==> v.authority.Some? && Pinned(store, v.authority.value, v.fingerprint)
      ensures !ok ==> store == old(store)
    {
      if v.authority.None? {
        return false;
      }
      var authority := v.authority.value;
      var trusted := if authority in store then Some(store[authority]) else None;
      if trusted == Some(v.fingerprint) {
        assert store == store[authority := v.fingerprint];
        return true;
      }
      if trusted.None? && v.fingerprint in store.Values {
        if !v.canSave {
          return false;
        }
        store := store[authority := v.fingerprint];
        return true;
      }
      for i := 0 to |v.inputs|
        invariant store == old(store)
        invariant forall j :: 0 <= j < i ==> v.inputs[j] == Unrelated
      {
        match v.inputs[i] {
          case Trust =>
            if !v.canSave {
              return false;
            }
            store := store[authority := v.fingerprint];
            return true;
          case Reject => return false;
          case Close => return false;
          case Unrelated =>
        }
      }
      return false;
    }
  }
}
