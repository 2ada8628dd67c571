/**
 The registry of remote sessions and their UI windows (src/flutter.rs, module `sessions`). Every operation
 is atomic here. The invariant over whole runs assumes only that an inserted window id is not in use for
 another peer, as the code does by using random ids.
 */
module SessionRegistry {
  import opened Common

  datatype WindowId = WindowId(uuid: nat)
  type Display = nat

  datatype PeerKey = PeerKey(peer: string, connType: nat)

  /** The displays a window asked for, and those its renderer has mapped. */
  datatype Window = Window(displays: seq<Display>, mapped: set<Display>)

  type Windows = map<WindowId, Window>
  type Registry = map<PeerKey, Windows>

  datatype Event =
    | InsertSession(id: WindowId, key: PeerKey)
    | InsertPeerSession(id: WindowId, key: PeerKey, displays: seq<Display>)
    | Remove(id: WindowId)
    | MapDisplays(id: WindowId, key: PeerKey, mapped: set<Display>)

  // ---------------------------------------------------------------------------
  // Specification
  // ---------------------------------------------------------------------------

  predicate Has(r: Registry, id: WindowId) {
    exists k :: k in r && id in r[k]
  }

  /** Every peer entry has a window and every window belongs to one peer. */
  ghost predicate Inv(r: Registry) {
    && (forall k :: k in r ==> r[k] != map[])
    && (forall id, k, l :: k in r && l in r && id in r[k] && id in r[l] ==> k == l)
  }

  function RemoveFrom(r: Registry, k: PeerKey, id: WindowId): Registry
    requires k in r
  {
    var rest := r[k] - {id};
    if rest == map[] then r - {k} else r[k := rest]
  }

  /** The entry that holds the window. */
  ghost function HomeOf(r: Registry, id: WindowId): (k: PeerKey)
    requires Has(r, id)
    ensures k in r && id in r[k]
  {
    var k :| k in r && id in r[k]; k
  }

  ghost function Step(r: Registry, e: Event): Registry {
    match e
    case InsertSession(id, key) =>
      r[key := (if key in r then r[key] else map[])[id := Window([], {})]]
    case InsertPeerSession(id, key, displays) =>
      if key in r then r[key := r[key][id := Window(displays, {})]] else r
    case Remove(id) => if Has(r, id) then RemoveFrom(r, HomeOf(r, id), id) else r
    case MapDisplays(id, key, mapped) =>
      if key in r && id in r[key] then r[key := r[key][id := r[key][id].(mapped := mapped)]] else r
  }

  ghost function Exec(r: Registry, es: seq<Event>): Registry
    decreases |es|
  {
    if es == [] then r else Exec(Step(r, es[0]), es[1..])
  }

  /** No other peer has a window with this id. */
  predicate Free(r: Registry, id: WindowId, key: PeerKey) {
    forall k :: k in r && id in r[k] ==> k == key
  }

  /** Inserted window ids are never in use for another peer. */
  ghost predicate FreshIds(r: Registry, es: seq<Event>)
    decreases |es|
  {
    es != [] ==>
      && (es[0].InsertSession? || es[0].InsertPeerSession? ==> Free(r, es[0].id, es[0].key))
      && FreshIds(Step(r, es[0]), es[1..])
  }

  lemma RemoveKeepsInv(r: Registry, id: WindowId)
    requires Inv(r) && Has(r, id)
    ensures Inv(Step(r, Remove(id))) && !Has(Step(r, Remove(id)), id)
  {
    var k := HomeOf(r, id);
    var r' := RemoveFrom(r, k, id);
    assert forall l, j :: l in r' && j in r'[l] ==> l in r && j in r[l];
  }

  lemma UpdateKeepsInv(r: Registry, k: PeerKey, id: WindowId, w: Window)
    requires Inv(r) && Free(r, id, k)
    ensures Inv(r[k := (if k in r then r[k] else map[])[id := w]])
  {
    var r' := r[k := (if k in r then r[k] else map[])[id := w]];
    assert id in r'[k];
    forall j, a, b | a in r' && b in r' && j in r'[a] && j in r'[b] ensures a == b {
      if j != id {
        assert a in r && j in r[a] && b in r && j in r[b];
      }
    }
  }

  /** Freshness is exactly what an insertion needs. */
  lemma InsertKeepsInvIff(r: Registry, id: WindowId, key: PeerKey)
    requires Inv(r)
    ensures Inv(Step(r, InsertSession(id, key))) <==> Free(r, id, key)
  {
    if Free(r, id, key) {
      UpdateKeepsInv(r, key, id, Window([], {}));
    } else {
      var k :| k in r && id in r[k] && k != key;
      var r' := Step(r, InsertSession(id, key));
      assert id in r'[k] && id in r'[key];
    }
  }

  lemma {:induction false} ExecKeepsInv(r: Registry, es: seq<Event>)
    requires Inv(r) && FreshIds(r, es)
    ensures Inv(Exec(r, es))
    decreases |es|
  {
    if es != [] {
      match es[0] {
        case InsertSession(id, key) => UpdateKeepsInv(r, key, id, Window([], {}));
        case InsertPeerSession(id, key, displays) =>
          if key in r { UpdateKeepsInv(r, key, id, Window(displays, {})); }
        case Remove(id) => if Has(r, id) { RemoveKeepsInv(r, id); }
        case MapDisplays(id, key, mapped) =>
          if key in r && id in r[key] { UpdateKeepsInv(r, key, id, r[key][id].(mapped := mapped)); }
      }
      ExecKeepsInv(Step(r, es[0]), es[1..]);
    }
  }

  /** The peer `k` has this window. */
  ghost predicate Shows(r: Registry, k: PeerKey, id: WindowId, w: Window) {
    k in r && id in r[k] && r[k][id] == w
  }

  /** An insertion adds one window and leaves all others, of its own and of other peers, as they are. */
  lemma InsertAddsOneWindow(r: Registry, id: WindowId, key: PeerKey, displays: seq<Display>)
    ensures Shows(Step(r, InsertSession(id, key)), key, id, Window([], {}))
    ensures key in r ==> Shows(Step(r, InsertPeerSession(id, key, displays)), key, id, Window(displays, {}))
    ensures key !in r ==> Step(r, InsertPeerSession(id, key, displays)) == r
    ensures forall k, j, w :: k != key || j != id ==>
              && (Shows(Step(r, InsertSession(id, key)), k, j, w) <==> Shows(r, k, j, w))
              && (Shows(Step(r, InsertPeerSession(id, key, displays)), k, j, w) <==> Shows(r, k, j, w))
  {
  }

  /** The event does not concern this window. */
  predicate Spares(e: Event, id: WindowId) { e.id != id }

  lemma StepSparesWindow(r: Registry, e: Event, k: PeerKey, id: WindowId, w: Window)
    requires Shows(r, k, id, w) && Spares(e, id)
    ensures Shows(Step(r, e), k, id, w)
  {
    if e.Remove? && Has(r, e.id) {
      var home := HomeOf(r, e.id);
      assert home == k ==> id in r[k] - {e.id};
    }
  }

  /** Whatever else is opened, closed or mapped, a window stays as it is until an event names it. */
  lemma {:induction false} WindowStays(r: Registry, es: seq<Event>, k: PeerKey, id: WindowId, w: Window)
    requires Shows(r, k, id, w) && forall i :: 0 <= i < |es| ==> Spares(es[i], id)
    ensures Shows(Exec(r, es), k, id, w)
    decreases |es|
  {
    if es != [] {
      StepSparesWindow(r, es[0], k, id, w);
      WindowStays(Step(r, es[0]), es[1..], k, id, w);
    }
  }

  /** `would_remove_peer_by_session_id`. */
  ghost predicate WouldRemovePeer(r: Registry, id: WindowId) {
    Has(r, id) && |r[HomeOf(r, id)]| == 1
  }

  lemma OnlyWindow(ws: Windows, id: WindowId)
    requires id in ws
    ensures |ws| == 1 <==> ws - {id} == map[]
  {
    var rest := ws - {id};
    assert ws.Keys == rest.Keys + {id};
    assert |ws| == |rest| + 1;
    if rest != map[] {
      assert rest.Keys != {};
    }
  }

  /**
   In every registry reachable with fresh ids: each peer has a window, each window one peer, and closing a
   window takes its peer away exactly when the prediction says so, leaving all other entries alone.
   */
  lemma ReachableRegistry(es: seq<Event>, id: WindowId, k: PeerKey)
    requires FreshIds(map[], es)
    ensures var r := Exec(map[], es);
            var r' := Step(r, Remove(id));
            && Inv(r) && Inv(r') && !Has(r', id)
            && (WouldRemovePeer(r, id) <==> exists l :: l in r && l !in r')
            && (k in r && id !in r[k] ==> k in r' && r'[k] == r[k])
            && (k in r && id in r[k] && k in r' ==> r'[k] == r[k] - {id})
  {
    var r := Exec(map[], es);
    ExecKeepsInv(map[], es);
    if Has(r, id) {
      RemoveKeepsInv(r, id);
      OnlyWindow(r[HomeOf(r, id)], id);
    }
  }

  /** The displays mapped by any of the windows. */
  ghost function MappedBy(ws: Windows): set<Display> {
    set w, d | w in ws && d in ws[w].mapped :: d
  }

  // ---------------------------------------------------------------------------
  // The code
  // ---------------------------------------------------------------------------

  /** The displays mapped by windows outside `skip`. */
  ghost function MappedOutside(ws: Windows, skip: set<WindowId>): set<Display> {
    set w, d | w in ws && w !in skip && d in ws[w].mapped :: d
  }

  lemma MappedOutsideIsMapped(ws: Windows, skip: set<WindowId>)
    ensures MappedOutside(ws, skip) == MappedBy(ws - skip)
  {
    forall d | d in MappedOutside(ws, skip) ensures d in MappedBy(ws - skip) {
      var w :| w in ws && w !in skip && d in ws[w].mapped;
      assert w in ws - skip && d in (ws - skip)[w].mapped;
    }
    forall d | d in MappedBy(ws - skip) ensures d in MappedOutside(ws, skip) {
      var w :| w in ws - skip && d in (ws - skip)[w].mapped;
      assert w in ws && w !in skip && d in ws[w].mapped;
    }
  }

  /** `check_remove_unused_displays` without a current display: `None` asks for nothing. */
  method UnusedDisplaysCheck(id: WindowId, handlers: Windows) returns (capture: Option<set<Display>>)
    ensures var remains := MappedBy(handlers - {id});
            capture == if remains == {} then None else Some(remains)
  {
    var remains: set<Display> := {};
    var todo: set<WindowId> := handlers.Keys;
    while todo != {}
      invariant todo <= handlers.Keys
      invariant remains == MappedOutside(handlers, todo + {id})
      decreases todo
    {
      var w :| w in todo;
      ghost var before := todo;
      todo := todo - {w};
      if w != id {
        assert before + {id} == (todo + {id}) + {w};
        remains := remains + handlers[w].mapped;
      } else {
        assert before + {id} == todo + {id};
      }
    }
    assert todo + {id} == {id};
    MappedOutsideIsMapped(handlers, {id});
    capture := if remains == {} then None else Some(remains);
  }

  class Sessions {
    var sessions: Registry

    constructor ()
      ensures sessions == map[] && Inv(sessions)
    {
      sessions := map[];
    }

    method Insert(id: WindowId, key: PeerKey)
      requires Inv(sessions)
      modifies this
      ensures sessions == Step(old(sessions), InsertSession(id, key))
      ensures Inv(sessions) <==> Free(old(sessions), id, key)
    {
      InsertKeepsInvIff(sessions, id, key);
      if key !in sessions {
        sessions := sessions[key := map[]];
      }
      sessions := sessions[key := sessions[key][id := Window([], {})]];
      assert sessions == Step(old(sessions), InsertSession(id, key));
    }

    /** `freed` is the display whose frame slot is given back, because a single-display window may find it full. */
    method InsertPeer(id: WindowId, key: PeerKey, displays: seq<Display>) returns (ok: bool, freed: Option<Display>)
      requires Inv(sessions)
      modifies this
      ensures sessions == Step(old(sessions), InsertPeerSession(id, key, displays))
      ensures Free(old(sessions), id, key) ==> Inv(sessions)
      ensures ok == (key in old(sessions))
      ensures freed == if ok && |displays| == 1 then Some(displays[0]) else None
    {
      if key !in sessions {
        return false, None;
      }
      if Free(sessions, id, key) {
        UpdateKeepsInv(sessions, key, id, Window(displays, {}));
      }
      sessions := sessions[key := sessions[key][id := Window(displays, {})]];
      return true, if |displays| == 1 then Some(displays[0]) else None;
    }

    /** The prediction, for any iteration order of the registry. */
    method WouldRemove(id: WindowId) returns (b: bool)
      requires Inv(sessions)
      ensures b == WouldRemovePeer(sessions, id)
    {
      var todo := sessions.Keys;
      while todo != {}
        invariant todo <= sessions.Keys
        invariant forall k :: k in sessions && k !in todo ==> id !in sessions[k]
        decreases todo
      {
        var k :| k in todo;
        if id in sessions[k] {
          return |sessions[k]| == 1;
        }
        todo := todo - {k};
      }
      return false;
    }

    /** Closes a window: returns its peer if it was the last one, else asks for the displays still in use. */
    method RemoveWindow(id: WindowId) returns (removed: Option<PeerKey>, capture: Option<set<Display>>)
      requires Inv(sessions)
      modifies this
      ensures sessions == Step(old(sessions), Remove(id)) && Inv(sessions)
      ensures removed.Some? <==> WouldRemovePeer(old(sessions), id)
      ensures removed.Some? ==> removed.value in old(sessions) && removed.value !in sessions
      ensures capture ==
              if Has(old(sessions), id) && !WouldRemovePeer(old(sessions), id)
              then
                var remains := MappedBy(old(sessions)[HomeOf(old(sessions), id)] - {id});
                if remains == {} then None else Some(remains)
              else None
    {
      removed, capture := None, None;
      var todo := sessions.Keys;
      while todo != {}
        invariant sessions == old(sessions) && removed.None? && capture.None?
        invariant todo <= sessions.Keys
        invariant forall k :: k in sessions && k !in todo ==> id !in sessions[k]
        decreases todo
      {
        var k :| k in todo;
        if id in sessions[k] {
          assert HomeOf(sessions, id) == k;
          RemoveKeepsInv(sessions, id);
          OnlyWindow(sessions[k], id);
          var rest := sessions[k] - {id};
          if rest == map[] {
            sessions := sessions - {k};
            removed := Some(k);
          } else {
            capture := UnusedDisplaysCheck(id, rest);
            assert rest - {id} == rest;
            sessions := sessions[k := rest];
          }
          return;
        }
        todo := todo - {k};
      }
    }
  }
}
