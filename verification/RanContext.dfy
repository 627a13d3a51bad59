/** The AMF's UE and RAN context tables: several indexes over one set of RAN UE contexts. */
module RanContext {
  import opened Octets

  datatype AccessType = ThreeGpp | NonThreeGpp

  /** The RAN UE NGAP ID of a context whose RAN has not named one yet. */
  const UNSPECIFIED: int := 0xffff_ffff

  class RanUe {
    var ranUeNgapId: int
    var amfUeNgapId: int
    var amfUe: AmfUe?
    var ran: AmfRan

    constructor (ran: AmfRan, ranId: int, amfId: int)
      ensures ranUeNgapId == ranId && amfUeNgapId == amfId && this.ran == ran && amfUe == null
    {
      ranUeNgapId, amfUeNgapId, amfUe, this.ran := ranId, amfId, null, ran;
    }
  }

  class AmfRan {
    const anType: AccessType
    /** RAN UE NGAP ID to context */
    var ranUeList: map<int, RanUe>

    constructor (anType: AccessType)
      ensures this.anType == anType && ranUeList == map[]
    {
      this.anType, ranUeList := anType, map[];
    }

    /** `RanUeFindByRanUeNgapID` */
    function Find(ranId: int): (u: RanUe?)
      reads this
      ensures u == null <==> ranId !in ranUeList
    {
      if ranId in ranUeList then ranUeList[ranId] else null
    }

    /** What the list holds under a name. */
    ghost function Under(name: int): set<RanUe>
      reads this
    {
      if name in ranUeList then {ranUeList[name]} else {}
    }
  }

  /** The UEs that contexts are attached to. */
  ghost function Owners(us: set<RanUe>): set<AmfUe>
    reads us`amfUe
  {
    set u | u in us && u.amfUe != null :: u.amfUe
  }

  class AmfUe {
    /** the attached context of each access */
    var ranUe: map<AccessType, RanUe>

    constructor ()
      ensures ranUe == map[]
    {
      ranUe := map[];
    }
  }

  class AmfContext {
    /** AMF UE NGAP ID to context */
    var ranUePool: map<int, RanUe>
    /** the IDs the NGAP ID generator has handed out and not got back */
    var issued: set<int>
    /** `AmfRanPool` */
    var rans: set<AmfRan>
    /** `UePool` */
    var ues: set<AmfUe>
    /** every context ever created, removed ones included */
    ghost var created: set<RanUe>

    /** A context that has not been removed. */
    ghost predicate Live(u: RanUe)
      reads this`ranUePool, u`amfUeNgapId
    {
      u.amfUeNgapId in ranUePool && ranUePool[u.amfUeNgapId] == u
    }

    /** Each pool key is its entry's AMF ID, and the issued IDs are exactly the keys. */
    ghost predicate PoolAgrees()
      reads this`ranUePool, this`issued, this`created, this`rans, created`amfUeNgapId, created`ran
    {
      && issued == ranUePool.Keys
      && forall k {:trigger ranUePool[k]} :: k in ranUePool ==>
           ranUePool[k] in created && ranUePool[k].amfUeNgapId == k && ranUePool[k].ran in rans
    }

    /** Each entry of a RAN's list has that key, that RAN and a pool entry. */
    ghost predicate ListsAgree()
      reads this`ranUePool, this`created, this`rans, created`amfUeNgapId, created`ranUeNgapId, created`ran, rans
    {
      forall r, k {:trigger r.ranUeList[k]} :: r in rans && k in r.ranUeList ==>
        var u := r.ranUeList[k];
        u in created && u.ranUeNgapId == k && u.ran == r && Live(u)
    }

    /** Each link of a UE leads to a live context that links back, on the access of its RAN. */
    ghost predicate LinksAgree()
      reads this`ranUePool, this`created, this`ues, created`amfUeNgapId, created`ran, created`amfUe, ues
    {
      && (forall e, a {:trigger e.ranUe[a]} :: e in ues && a in e.ranUe ==>
            var u := e.ranUe[a];
            u in created && Live(u) && u.amfUe == e && u.ran.anType == a)
      && (forall u {:trigger u.amfUe} :: u in created && Live(u) && u.amfUe != null ==> u.amfUe in ues)
    }

    ghost predicate Valid()
      reads this, created, rans, ues
    {
      PoolAgrees() && ListsAgree() && LinksAgree()
    }

    /** Every live context whose RAN has named it is in that RAN's list under that name. */
    ghost predicate Indexed()
      reads this`ranUePool, this`created, this`rans, created`ranUeNgapId, created`ran, rans
    {
      forall k {:trigger ranUePool[k]} :: k in ranUePool && ranUePool[k] in created && ranUePool[k].ran in rans ==>
        Named(ranUePool[k])
    }

    static ghost predicate Named(u: RanUe)
      reads u`ranUeNgapId, u`ran, u.ran
    {
      u.ranUeNgapId != UNSPECIFIED ==> u.ranUeNgapId in u.ran.ranUeList && u.ran.ranUeList[u.ranUeNgapId] == u
    }

    /** Every attached context is the one that its UE links to on the access of its RAN. */
    ghost predicate Mutual()
      reads this`ranUePool, this`created, this`ues, created`amfUe, created`ran, ues
    {
      forall k {:trigger ranUePool[k]} :: k in ranUePool && ranUePool[k] in created && ranUePool[k].amfUe in ues ==>
        Attached(ranUePool[k])
    }

    static ghost predicate Attached(u: RanUe)
      reads u`amfUe, u`ran, u.amfUe
    {
      u.amfUe != null ==> u.ran.anType in u.amfUe.ranUe && u.amfUe.ranUe[u.ran.anType] == u
    }

    /** No UE links to the context. */
    ghost predicate Unlinked(u: RanUe)
      reads this`ues, ues
    {
      forall e, a {:trigger e.ranUe[a]} :: e in ues && a in e.ranUe ==> e.ranUe[a] != u
    }

    constructor (rans: set<AmfRan>, ues: set<AmfUe>)
      requires forall r :: r in rans ==> r.ranUeList == map[]
      requires forall e :: e in ues ==> e.ranUe == map[]
      ensures Valid() && Indexed() && Mutual() && ranUePool == map[] && this.rans == rans && this.ues == ues && created == {}
    {
      ranUePool, issued := map[], {};
      this.rans, this.ues, created := rans, ues, {};
    }

    /** Enters a new context in the pool and, if its RAN named it, in that RAN's list. */
    method Store(u: RanUe)
      requires Valid() && u !in created && u.ran in rans && u.amfUe == null && u.amfUeNgapId !in ranUePool
      modifies this`ranUePool, this`issued, this`created, u.ran
      ensures Valid() && created == old(created) + {u} && ranUePool == old(ranUePool)[u.amfUeNgapId := u]
      ensures u.ran.ranUeList ==
                if u.ranUeNgapId == UNSPECIFIED then old(u.ran.ranUeList) else old(u.ran.ranUeList)[u.ranUeNgapId := u]
      ensures old(Indexed()) && (u.ranUeNgapId == UNSPECIFIED || u.ranUeNgapId !in old(u.ran.ranUeList)) ==> Indexed()
      ensures old(Mutual()) ==> Mutual()
    {
      hide PoolAgrees, ListsAgree, LinksAgree, Indexed, IndexedBut, Unlisted;
      Admit(u);
      if u.ranUeNgapId != UNSPECIFIED {
        ListAs(u);
      }
    }

    /** The pool entry of a new context. */
    method Admit(u: RanUe)
      requires Valid() && u !in created && u.ran in rans && u.amfUe == null && u.amfUeNgapId !in ranUePool
      modifies this`ranUePool, this`issued, this`created
      ensures Valid() && created == old(created) + {u} && ranUePool == old(ranUePool)[u.amfUeNgapId := u]
      ensures Live(u) && Unlisted(u)
      ensures old(Indexed()) ==> IndexedBut(u) && (u.ranUeNgapId == UNSPECIFIED ==> Indexed())
      ensures old(Mutual()) ==> Mutual()
    {
      ranUePool, issued, created := ranUePool[u.amfUeNgapId := u], issued + {u.amfUeNgapId}, created + {u};
    }

    /** The list entry of a context that is in no list. */
    method ListAs(u: RanUe)
      requires Valid() && u in created && Live(u) && Unlisted(u)
      modifies u.ran
      ensures Valid() && u.ran.ranUeList == old(u.ran.ranUeList)[u.ranUeNgapId := u]
      ensures old(IndexedBut(u)) && u.ranUeNgapId !in old(u.ran.ranUeList) ==> Indexed()
    {
      u.ran.ranUeList := u.ran.ranUeList[u.ranUeNgapId := u];
    }

    /** `NewRanUeWithContext`; `id` is the generator's answer, an unused ID or a failure. */
    method NewRanUe(ran: AmfRan, ranId: int, id: Option<int>) returns (u: RanUe?)
      requires Valid() && ran in rans
      requires id.Some? ==> id.value !in issued
      modifies this`ranUePool, this`issued, this`created, ran
      ensures Valid() && (u == null <==> id.None?)
      ensures id.None? ==> unchanged(this) && unchanged(ran)
      ensures id.Some? ==>
                && fresh(u) && created == old(created) + {u}
                && ranUePool == old(ranUePool)[id.value := u]
                && u.amfUeNgapId == id.value && u.ranUeNgapId == ranId && u.ran == ran && u.amfUe == null
                && ran.ranUeList == if ranId == UNSPECIFIED then old(ran.ranUeList) else old(ran.ranUeList)[ranId := u]
      ensures old(Indexed()) && (ranId == UNSPECIFIED || ranId !in old(ran.ranUeList)) ==> Indexed()
      ensures old(Mutual()) ==> Mutual()
    {
      if id.None? {
        return null;
      }
      var n := new RanUe(ran, ranId, id.value);
      Store(n);
      return n;
    }

    /** `AmfUe.DetachRanUe` */
    method DetachRanUe(e: AmfUe, a: AccessType)
      requires Valid() && e in ues
      modifies e
      ensures Valid() && e.ranUe == old(e.ranUe) - {a}
      ensures old(Indexed()) ==> Indexed()
      ensures forall u :: u in created && u.amfUe == e && u.ran.anType == a ==> Unlinked(u)
      ensures forall u {:trigger Unlinked(u)} :: u in created && (a !in old(e.ranUe) || u != old(e.ranUe[a])) ==>
                (Unlinked(u) <==> old(Unlinked(u)))
    {
      e.ranUe := e.ranUe - {a};
      assert forall x, b {:trigger old(x.ranUe[b])} :: x in ues && b in old(x.ranUe) && (x != e || b != a) ==>
          b in x.ranUe && x.ranUe[b] == old(x.ranUe[b]);
    }

    /** `RanUe.DetachAmfUe` only takes back one end: the links agree afterwards exactly when no UE links to the context. */
    method DetachAmfUe(u: RanUe)
      requires Valid() && u in created && Live(u)
      modifies u`amfUe
      ensures u.amfUe == null && PoolAgrees() && ListsAgree() && (Unlinked(u) <==> old(Unlinked(u)))
      ensures Valid() <==> old(Unlinked(u))
      ensures old(Indexed()) ==> Indexed()
    {
      u.amfUe := null;
    }

    /** The RAN's list holds the context under its own name. */
    static ghost predicate Listed(ran: AmfRan, u: RanUe)
      reads ran, u`ranUeNgapId
    {
      u.ranUeNgapId in ran.ranUeList && ran.ranUeList[u.ranUeNgapId] == u
    }

    /** `ran.RanUeList.Delete(ranUe.RanUeNgapId)` */
    method Unlist(u: RanUe)
      requires Valid() && u in created && Live(u)
      modifies u.ran
      ensures Valid() && Unlisted(u) && u.ran.ranUeList == old(u.ran.ranUeList) - {u.ranUeNgapId}
      ensures old(Indexed()) ==> IndexedBut(u)
    {
      NamesDiffer(u);
      u.ran.ranUeList := u.ran.ranUeList - {u.ranUeNgapId};
    }

    ghost predicate Unlisted(u: RanUe)
      reads this`rans, rans
    {
      forall r, k {:trigger r.ranUeList[k]} :: r in rans && k in r.ranUeList ==> r.ranUeList[k] != u
    }

    ghost predicate IndexedBut(u: RanUe)
      reads this`ranUePool, this`created, this`rans, created`ranUeNgapId, created`ran, rans
    {
      forall k {:trigger ranUePool[k]} ::
        k in ranUePool && ranUePool[k] != u && ranUePool[k] in created && ranUePool[k].ran in rans ==> Named(ranUePool[k])
    }

    /** The tail of `RanUe.Remove`: out of its RAN's list, out of the pool, and its ID back to the generator. */
    method Release(u: RanUe)
      requires Valid() && u in created && Live(u) && Unlinked(u)
      modifies this`ranUePool, this`issued, u.ran
      ensures Valid()
      ensures ranUePool == old(ranUePool) - {u.amfUeNgapId}
      ensures u.ran.ranUeList == old(u.ran.ranUeList) - {u.ranUeNgapId}
      ensures (old(Indexed()) ==> Indexed()) && (old(Mutual()) ==> Mutual())
    {
      hide PoolAgrees, ListsAgree, LinksAgree, Indexed, IndexedBut, Unlinked, Mutual;
      Unlist(u);
      assert !Listed(u.ran, u);
      Forget(u.amfUeNgapId);
    }

    /** Two live contexts of one RAN never share a name. */
    lemma {:induction false} NamesDiffer(u: RanUe)
      requires PoolAgrees() && u in created && Live(u)
      ensures Indexed() ==>
                forall k {:trigger ranUePool[k]} :: k in ranUePool ==>
                  var w := ranUePool[k];
                  Named(w) && (w != u && w.ran == u.ran && w.ranUeNgapId != UNSPECIFIED ==> w.ranUeNgapId != u.ranUeNgapId)
    {
      var k := u.amfUeNgapId;
      assert k in ranUePool && ranUePool[k] == u;
      assert ranUePool[k].ran in rans;
      if Indexed() {
        assert Named(u);
        forall j | j in ranUePool
          ensures var w := ranUePool[j];
                  Named(w) && (w != u && w.ran == u.ran && w.ranUeNgapId != UNSPECIFIED ==> w.ranUeNgapId != u.ranUeNgapId)
        {
          assert ranUePool[j] in created && ranUePool[j].ran in rans;
          assert Named(ranUePool[j]);
        }
      }
    }

    /** A context and its UE let go of each other. */
    method Part(u: RanUe)
      requires Valid() && u in created && Live(u) && u.amfUe != null && u.amfUe in ues
      modifies u`amfUe, u.amfUe
      ensures Valid() && u.amfUe == null && Unlinked(u)
      ensures old(u.amfUe).ranUe == old(u.amfUe.ranUe) - {u.ran.anType}
      ensures (old(Indexed()) ==> Indexed()) && (old(Mutual()) ==> Mutual())
    {
      hide PoolAgrees, ListsAgree, LinksAgree, Indexed, Unlinked;
      OnlyOne(u);
      DetachRanUe(u.amfUe, u.ran.anType);
      DetachAmfUe(u);
    }

    /** A UE has at most one attached context on each access. */
    lemma {:induction false} OnlyOne(u: RanUe)
      requires u in created && Live(u) && u.amfUe in ues
      ensures Mutual() ==>
                forall k {:trigger ranUePool[k]} :: k in ranUePool && ranUePool[k] in created ==>
                  var w := ranUePool[k]; w.amfUe == u.amfUe && w.ran.anType == u.ran.anType ==> w == u
    {
      var j := u.amfUeNgapId;
      assert j in ranUePool && ranUePool[j] == u;
      assert Mutual() ==> Attached(ranUePool[j]);
    }

    lemma {:induction false} KnownUnlinked(u: RanUe)
      requires LinksAgree() && u.amfUe == null
      ensures Unlinked(u)
    {
    }

    /** `RanUe.Remove` */
    method Remove(u: RanUe)
      requires Valid() && u in created && Live(u)
      modifies this`ranUePool, this`issued, u`amfUe, u.ran, u.amfUe
      ensures Valid()
      ensures ranUePool == old(ranUePool) - {u.amfUeNgapId} && u.amfUe == null
      ensures u.ran.ranUeList == old(u.ran.ranUeList) - {u.ranUeNgapId}
      ensures old(u.amfUe) != null ==> old(u.amfUe).ranUe == old(u.amfUe.ranUe) - {u.ran.anType}
      ensures (old(Indexed()) ==> Indexed()) && (old(Mutual()) ==> Mutual())
    {
      hide PoolAgrees, ListsAgree, LinksAgree, Indexed, Unlinked, Mutual;
      if u.amfUe != null {
        KnownOwner(u.amfUeNgapId);
        Part(u);
      } else {
        KnownUnlinked(u);
      }
      Release(u);
    }

    /** `RanUe.Remove` on a context that has been removed before: it deletes whatever its names lead to by now. The tables
        agree afterwards exactly when its AMF ID has not been issued again, or the context that has it now is linked to
        no UE and is not, or no longer, in a list. */
    method RemoveAgain(u: RanUe)
      requires Valid() && u in created && !Live(u) && u.amfUe == null && u.ran in rans
      modifies this`ranUePool, this`issued, u.ran
      ensures ranUePool == old(ranUePool) - {u.amfUeNgapId} && issued == old(issued) - {u.amfUeNgapId}
      ensures u.ran.ranUeList == old(u.ran.ranUeList) - {u.ranUeNgapId}
      ensures Valid() <==> old(u.amfUeNgapId in ranUePool ==>
                                 var w := ranUePool[u.amfUeNgapId];
                                 Unlinked(w) && (Listed(w.ran, w) ==> w.ran == u.ran && w.ranUeNgapId == u.ranUeNgapId))
    {
      Unname(u.ran, u.ranUeNgapId);
      Forget(u.amfUeNgapId);
    }

    /** Deleting a key of a RAN's list keeps the tables in agreement. */
    method Unname(ran: AmfRan, name: int)
      requires Valid() && ran in rans
      modifies ran
      ensures Valid() && ran.ranUeList == old(ran.ranUeList) - {name}
      ensures forall k {:trigger ranUePool[k]} :: k in ranUePool ==>
                var w := ranUePool[k];
                Listed(w.ran, w) <==> old(Listed(w.ran, w)) && !(w.ran == ran && w.ranUeNgapId == name)
    {
      ran.ranUeList := ran.ranUeList - {name};
    }

    /** Deleting an ID from the pool keeps them so exactly when nothing leads to its context any more. */
    method Forget(id: int)
      requires Valid()
      modifies this`ranUePool, this`issued
      ensures ranUePool == old(ranUePool) - {id} && issued == old(issued) - {id}
      ensures Valid() <==> old(id in ranUePool ==> Unlinked(ranUePool[id]) && !Listed(ranUePool[id].ran, ranUePool[id]))
      ensures old(id in ranUePool) ==> (old(IndexedBut(ranUePool[id])) ==> Indexed())
      ensures old(Mutual()) ==> Mutual()
    {
      assert id in ranUePool ==> ranUePool[id].ran in rans && ranUePool[id] in created;
      ghost var gone := if id in ranUePool then {ranUePool[id]} else {};
      assert forall w :: w in gone ==> w.ran in rans && w in created;
      ranUePool, issued := ranUePool - {id}, issued - {id};
      assert forall w :: w in gone ==> !Live(w);
      forall w | w in gone && Listed(w.ran, w)
        ensures !ListsAgree()
      {
        var r, k := w.ran, w.ranUeNgapId;
        assert r in rans && k in r.ranUeList && r.ranUeList[k] == w && !Live(w);
      }
      assert forall x :: x in created && x !in gone ==> (Live(x) <==> old(Live(x)));
    }

    ghost function OldContext(e: AmfUe, a: AccessType): set<RanUe>
      reads e
    {
      if a in e.ranUe then {e.ranUe[a]} else {}
    }

    /** `AttachRanUeToAmfUeAndReleaseOldIfAny`, without the NGAP messages: the old context of that access loses its UE.
        The links agree afterwards exactly when no other UE was linked to the context, for that link is not taken back. */
    method Attach(e: AmfUe, u: RanUe)
      requires Valid() && e in ues && u in created && Live(u)
      modifies e, u`amfUe, OldContext(e, u.ran.anType)`amfUe
      ensures e.ranUe == old(e.ranUe)[u.ran.anType := u] && u.amfUe == e && PoolAgrees() && ListsAgree()
      ensures Valid() <==> old(u.amfUe == e || Unlinked(u))
      ensures old(Indexed()) ==> Indexed()
      ensures old(Mutual()) && old(u.amfUe == e || u.amfUe == null) ==> Mutual()
      ensures forall w :: w in old(OldContext(e, u.ran.anType)) && w != u ==> w.amfUe == null
    {
      hide PoolAgrees, ListsAgree, Indexed, LinksAgree, Unlinked;
      var a := u.ran.anType;
      if a in e.ranUe {
        var old_ := e.ranUe[a];
        LinkedHere(e, a, u);
        DetachRanUe(e, a);
        DetachAmfUe(old_);
      }
      Link(e, u);
    }

    /** What is known of the context that a UE links to. */
    lemma {:induction false} LinkedHere(e: AmfUe, a: AccessType, u: RanUe)
      requires LinksAgree() && e in ues && a in e.ranUe
      ensures var w := e.ranUe[a]; w in created && Live(w) && w.amfUe == e && w.ran.anType == a
    {
    }

    /** `AttachRanUe`, for an access without a link. */
    method Link(e: AmfUe, u: RanUe)
      requires Valid() && e in ues && u in created && Live(u) && u.ran.anType !in e.ranUe
      modifies e, u`amfUe
      ensures e.ranUe == old(e.ranUe)[u.ran.anType := u] && u.amfUe == e && PoolAgrees() && ListsAgree()
      ensures Valid() <==> old(u.amfUe == e || Unlinked(u))
      ensures old(Indexed()) ==> Indexed()
    {
      hide PoolAgrees, ListsAgree, Indexed;
      e.ranUe := e.ranUe[u.ran.anType := u];
      u.amfUe := e;
    }

    /** `SwitchToRan` keeps the tables in agreement exactly when the access type stays or no UE is attached. */
    method SwitchToRan(u: RanUe, newRan: AmfRan, ranId: int)
      requires Valid() && u in created && Live(u) && newRan in rans
      modifies u`ran, u`ranUeNgapId, u.ran, newRan
      ensures u.ran == newRan && u.ranUeNgapId == ranId
      ensures old(u.ran) != newRan ==>
                && old(u.ran).ranUeList == old(u.ran.ranUeList) - {old(u.ranUeNgapId)}
                && newRan.ranUeList == old(newRan.ranUeList)[ranId := u]
      ensures old(u.ran) == newRan ==> newRan.ranUeList == (old(newRan.ranUeList) - {old(u.ranUeNgapId)})[ranId := u]
      ensures PoolAgrees() && ListsAgree()
      ensures Valid() <==> old(u.ran).anType == newRan.anType || old(Unlinked(u))
      ensures old(Indexed()) && (ranId !in old(newRan.ranUeList) || old(newRan.ranUeList[ranId]) == u) ==> Indexed()
      ensures old(Mutual()) && old(u.ran).anType == newRan.anType ==> Mutual()
    {
      Unlist(u);
      Enlist(u, newRan, ranId);
    }

    /** Stores an unlisted context in a RAN's list and makes it that RAN's. */
    method Enlist(u: RanUe, newRan: AmfRan, ranId: int)
      requires Valid() && u in created && Live(u) && newRan in rans && Unlisted(u)
      modifies u`ran, u`ranUeNgapId, newRan
      ensures u.ran == newRan && u.ranUeNgapId == ranId && newRan.ranUeList == old(newRan.ranUeList)[ranId := u]
      ensures PoolAgrees() && ListsAgree()
      ensures Valid() <==> old(u.ran).anType == newRan.anType || old(Unlinked(u))
      ensures old(IndexedBut(u)) && ranId !in old(newRan.ranUeList) ==> Indexed()
      ensures old(Mutual()) && old(u.ran).anType == newRan.anType ==> Mutual()
    {
      newRan.ranUeList := newRan.ranUeList[ranId := u];
      u.ran := newRan;
      u.ranUeNgapId := ranId;
    }

    /** The handover acknowledgement names the context that `ranUeFind` gave it, without looking at what has the name
        already. The lists agree afterwards exactly when the context was in no list under another name, and no named
        context is displaced from its list exactly when the name was free or its own. */
    method NameContext(u: RanUe, ranId: int)
      requires Valid() && u in created && Live(u)
      modifies u`ranUeNgapId, u.ran
      ensures u.ranUeNgapId == ranId && u.ran.ranUeList == old(u.ran.ranUeList)[ranId := u] && PoolAgrees()
      ensures Valid() <==> old(u.ranUeNgapId) == ranId || old(Unlisted(u))
      ensures old(Indexed()) ==>
                (Indexed() <==> ranId == UNSPECIFIED || ranId !in old(u.ran.ranUeList) || old(u.ran.ranUeList[ranId]) == u)
    {
      ghost var oldId := u.ranUeNgapId;
      Rename(u, ranId);
      StoreName(u, oldId);
    }

    /** A context whose RAN has no list entry for it under any name but its own, or an entry that is now stale. */
    ghost predicate Renamed(u: RanUe, oldId: int)
      reads this, created, rans, ues
    {
      && PoolAgrees() && LinksAgree() && u in created && Live(u) && u.ran in rans
      && (forall r, k {:trigger r.ranUeList[k]} :: r in rans && k in r.ranUeList ==>
            var w := r.ranUeList[k];
            w in created && w.ran == r && Live(w) && k == if w == u then oldId else w.ranUeNgapId)
    }

    method Rename(u: RanUe, ranId: int)
      requires Valid() && u in created && Live(u)
      modifies u`ranUeNgapId
      ensures u.ranUeNgapId == ranId && Renamed(u, old(u.ranUeNgapId))
      ensures old(Indexed()) ==> IndexedBut(u)
      ensures Unlisted(u) <==> old(Unlisted(u))
    {
      ghost var key := u.amfUeNgapId;
      assert ranUePool[key] == u && ranUePool[key].ran in rans;
      u.ranUeNgapId := ranId;
    }

    method StoreName(u: RanUe, ghost oldId: int)
      requires Renamed(u, oldId)
      modifies u.ran
      ensures u.ran.ranUeList == old(u.ran.ranUeList)[u.ranUeNgapId := u] && PoolAgrees()
      ensures Valid() <==> oldId == u.ranUeNgapId || old(Unlisted(u))
      ensures old(IndexedBut(u)) ==>
                (Indexed() <==> u.ranUeNgapId == UNSPECIFIED || u.ranUeNgapId !in old(u.ran.ranUeList)
                                || old(u.ran.ranUeList[u.ranUeNgapId]) == u)
    {
      var name := u.ranUeNgapId;
      assert Unlisted(u) <==> !(oldId in u.ran.ranUeList && u.ran.ranUeList[oldId] == u);
      ghost var displaced := if name in u.ran.ranUeList then {u.ran.ranUeList[name]} else {};
      assert forall w :: w in displaced && w != u ==> w in created && w.ran == u.ran && w.ranUeNgapId == name && Live(w);
      u.ran.ranUeList := u.ran.ranUeList[name := u];
      assert oldId != name && !old(Unlisted(u)) ==> oldId in u.ran.ranUeList && u.ran.ranUeList[oldId] == u;
      forall w | w in displaced && w != u && name != UNSPECIFIED
        ensures !Indexed()
      {
        var k := w.amfUeNgapId;
        assert k in ranUePool && ranUePool[k] == w && !Named(w);
      }
    }

    /** The path-switch handler overwrites the RAN ID before it calls `SwitchToRan`, which then deletes the wrong key, or
        does not call it at all when no session was switched: either way the lists agree afterwards exactly when the ID
        did not change or the context was in no list. */
    method PathSwitch(u: RanUe, newRan: AmfRan, ranId: int, switched: bool)
      requires Valid() && u in created && Live(u) && newRan in rans
      modifies u`ran, u`ranUeNgapId, u.ran, newRan
      ensures u.ran == (if switched then newRan else old(u.ran)) && u.ranUeNgapId == ranId && PoolAgrees()
      ensures !switched ==> u.ran.ranUeList == old(u.ran.ranUeList) && newRan.ranUeList == old(newRan.ranUeList)
      ensures switched && old(u.ran) != newRan ==>
                old(u.ran).ranUeList == old(u.ran.ranUeList) - {ranId} && newRan.ranUeList == old(newRan.ranUeList)[ranId := u]
      ensures switched && old(u.ran) == newRan ==> newRan.ranUeList == old(newRan.ranUeList)[ranId := u]
      ensures ListsAgree() <==> old(u.ranUeNgapId) == ranId || old(Unlisted(u))
    {
      ghost var oldId, key := u.ranUeNgapId, u.amfUeNgapId;
      assert ranUePool[key] == u && ranUePool[key].ran in rans;
      assert Unlisted(u) <==> !Listed(u.ran, u);
      u.ranUeNgapId := ranId;
      var oldRan := u.ran;
      if switched {
        oldRan.ranUeList := oldRan.ranUeList - {u.ranUeNgapId};
        newRan.ranUeList := newRan.ranUeList[ranId := u];
        u.ran := newRan;
        u.ranUeNgapId := ranId;
      }
      assert oldId != ranId && !old(Unlisted(u)) ==> oldId in oldRan.ranUeList && oldRan.ranUeList[oldId] == u;
    }

    /** `RemoveAllRanUe`: every listed context of the RAN goes, and only those. A context the RAN has not named yet stays. */
    method RemoveAllRanUe(ran: AmfRan)
      requires Valid() && ran in rans
      modifies this`ranUePool, this`issued, created`amfUe, ues, ran
      ensures Valid() && ran.ranUeList == map[]
      ensures forall k {:trigger k in ranUePool} {:trigger k in old(ranUePool)} ::
                k in ranUePool <==> k in old(ranUePool) && !old(Listed(ran, ranUePool[k]))
      ensures forall k {:trigger ranUePool[k]} :: k in ranUePool ==> k in old(ranUePool) && ranUePool[k] == old(ranUePool[k])
      ensures forall w :: w in created && !old(Listed(ran, w)) ==> w.amfUe == old(w.amfUe)
      ensures (old(Indexed()) ==> Indexed()) && (old(Mutual()) ==> Mutual())
    {
      hide PoolAgrees, ListsAgree, LinksAgree, Indexed, Mutual;
      KnownAll();
      ghost var list0 := ran.ranUeList;
      ghost var gone := DrainList(ran);
      forall w | w in old(created)
        ensures w in gone <==> old(Listed(ran, w))
      {
        var n := w.ranUeNgapId;
        if n in list0 {
          assert list0[n] in gone;
        }
      }
    }

    /** The loop over the list, which shrinks as it goes: `gone` is what it has removed. */
    method DrainList(ran: AmfRan) returns (ghost gone: set<RanUe>)
      requires Valid() && ran in rans
      modifies this`ranUePool, this`issued, created`amfUe, ues, ran
      ensures Valid() && (old(Indexed()) ==> Indexed()) && (old(Mutual()) ==> Mutual()) && ran.ranUeList == map[]
      ensures forall k {:trigger k in ranUePool} :: k in ranUePool <==> k in old(ranUePool) && old(ranUePool)[k] !in gone
      ensures forall k {:trigger ranUePool[k]} :: k in ranUePool ==> ranUePool[k] == old(ranUePool)[k]
      ensures forall w :: w in created && w !in gone ==> w.amfUe == old(w.amfUe)
      ensures forall n :: n in old(ran.ranUeList) ==> old(ran.ranUeList)[n] in gone
      ensures forall w :: w in gone ==> w.ranUeNgapId in old(ran.ranUeList) && old(ran.ranUeList)[w.ranUeNgapId] == w
    {
      hide PoolAgrees, ListsAgree, LinksAgree, Indexed, Mutual, Without;
      ghost var pool0, list0 := ranUePool, ran.ranUeList;
      KnownNames(ran);
      gone := {};
      WithoutNone(pool0);
      WithoutNone(list0);
      while exists k :: k in ran.ranUeList
        invariant Valid() && (old(Indexed()) ==> Indexed()) && (old(Mutual()) ==> Mutual())
        invariant forall w :: w in created && w !in gone ==> w.amfUe == old(w.amfUe)
        invariant forall w :: w in gone ==> w.ranUeNgapId in list0 && list0[w.ranUeNgapId] == w
        invariant Without(pool0, ranUePool, gone) && Without(list0, ran.ranUeList, gone)
        decreases ran.ranUeList.Keys
      {
        var k :| k in ran.ranUeList;
        KnownListed(ran, k);
        ghost var pool, list := ranUePool, ran.ranUeList;
        var u := RemoveListed(ran, k);
        WithoutOne(pool0, pool, gone, u.amfUeNgapId, u);
        WithoutOne(list0, list, gone, k, u);
        WithoutKeys(list0, list, gone);
        gone := gone + {u};
      }
      assert ran.ranUeList == map[];
      WithoutAll(list0, ran.ranUeList, gone);
      WithoutKeys(pool0, ranUePool, gone);
    }

    static lemma {:induction false} WithoutOne(before: map<int, RanUe>, now: map<int, RanUe>, gone: set<RanUe>, k: int, u: RanUe)
      requires Without(before, now, gone) && k in now && now[k] == u
      requires forall j {:trigger j in before} :: j in before && before[j] == u ==> j == k
      ensures Without(before, now - {k}, gone + {u})
    {
    }

    static lemma {:induction false} WithoutNone(before: map<int, RanUe>)
      ensures Without(before, before, {})
    {
    }

    static lemma {:induction false} WithoutAll(before: map<int, RanUe>, after: map<int, RanUe>, gone: set<RanUe>)
      requires Without(before, after, gone) && after == map[]
      ensures forall n {:trigger n in before} :: n in before ==> before[n] in gone
    {
    }

    static lemma {:induction false} WithoutKeys(before: map<int, RanUe>, after: map<int, RanUe>, gone: set<RanUe>)
      requires Without(before, after, gone)
      ensures forall k {:trigger k in after} :: k in after <==> k in before && before[k] !in gone
      ensures forall k {:trigger after[k]} :: k in after ==> after[k] == before[k]
    {
    }

    /** The map without the entries of these contexts. */
    static ghost predicate Without(before: map<int, RanUe>, after: map<int, RanUe>, gone: set<RanUe>) {
      && (forall k {:trigger k in after} {:trigger k in before} :: k in after <==> k in before && before[k] !in gone)
      && (forall k {:trigger after[k]} :: k in after ==> after[k] == before[k])
    }

    /** Keys are IDs in the pool, and names in a list. */
    lemma {:induction false} KnownNames(ran: AmfRan)
      requires PoolAgrees() && ListsAgree() && ran in rans
      ensures forall k {:trigger k in ranUePool} :: k in ranUePool ==> ranUePool[k].amfUeNgapId == k
      ensures forall n {:trigger n in ran.ranUeList} :: n in ran.ranUeList ==>
                ran.ranUeList[n] in created && ran.ranUeList[n].ranUeNgapId == n && ran.ranUeList[n].ran == ran
    {
    }

    method RemoveListed(ran: AmfRan, k: int) returns (u: RanUe)
      requires Valid() && ran in rans && k in ran.ranUeList
      modifies this`ranUePool, this`issued, ran.Under(k)`amfUe, ues, ran
      ensures Valid() && (old(Indexed()) ==> Indexed()) && (old(Mutual()) ==> Mutual())
      ensures u == old(ran.ranUeList[k]) && u.ranUeNgapId == k && old(Live(u)) && u in created
      ensures ran.ranUeList == old(ran.ranUeList) - {k} && ranUePool == old(ranUePool) - {u.amfUeNgapId}
    {
      u := ran.ranUeList[k];
      assert u.ranUeNgapId == k && u.ran == ran && Live(u) && u in created;
      assert u.amfUe != null ==> u.amfUe in ues;
      Remove(u);
    }

    /** `removeRanUeByInvalidId`: a local release that never touches another context's link. */
    method RemoveByInvalidId(ran: AmfRan, u: RanUe?)
      requires Valid() && ran in rans
      requires u != null ==> u in created && Live(u) && u.ran == ran
      modifies this`ranUePool, this`issued, ran, created`amfUe, ues
      ensures Valid() && (old(Indexed()) ==> Indexed()) && (old(Mutual()) ==> Mutual())
      ensures u == null ==> ranUePool == old(ranUePool) && ran.ranUeList == old(ran.ranUeList)
      ensures u != null ==>
                ranUePool == old(ranUePool) - {u.amfUeNgapId} && ran.ranUeList == old(ran.ranUeList) - {u.ranUeNgapId}
      ensures forall w :: w in created && w != u ==> w.amfUe == old(w.amfUe)
      ensures forall e, a {:trigger old(e.ranUe[a])} :: e in ues && a in old(e.ranUe) && old(e.ranUe[a]) != u ==>
                a in e.ranUe && e.ranUe[a] == old(e.ranUe[a])
    {
      hide PoolAgrees, ListsAgree, LinksAgree, Indexed, Unlinked, Mutual;
      if u == null {
        return;
      }
      KnownOwner(u.amfUeNgapId);
      Loosen(u);
      Remove(u);
    }

    /** The guarded detachment: the UE's link goes only if it leads to this context. */
    method Loosen(u: RanUe)
      requires Valid() && u in created && Live(u) && (u.amfUe != null ==> u.amfUe in ues)
      modifies u`amfUe, u.amfUe
      ensures Valid() && u.amfUe == null && (old(Indexed()) ==> Indexed()) && (old(Mutual()) ==> Mutual())
      ensures old(u.amfUe) != null ==>
                forall a {:trigger a in old(u.amfUe).ranUe} :: a in old(u.amfUe.ranUe) && old(u.amfUe.ranUe[a]) != u ==>
                  a in old(u.amfUe).ranUe && old(u.amfUe).ranUe[a] == old(u.amfUe.ranUe[a])
    {
      hide PoolAgrees, ListsAgree, LinksAgree, Indexed, Unlinked;
      LinkedOnly(u);
      if u.amfUe != null {
        OnlyOne(u);
      }
      var e, a := u.amfUe, u.ran.anType;
      if e != null && a in e.ranUe && e.ranUe[a] == u {
        DetachRanUe(e, a);
      }
      DetachAmfUe(u);
    }

    /** Only the UE of a context links to it, on the access of its RAN. */
    lemma {:induction false} LinkedOnly(u: RanUe)
      requires LinksAgree()
      ensures Unlinked(u) || (u.amfUe != null && u.ran.anType in u.amfUe.ranUe && u.amfUe.ranUe[u.ran.anType] == u)
    {
    }

    /** `RanUeFindByAmfUeNgapID` */
    function Find(amfId: int): (u: RanUe?)
      reads this
      ensures u == null <==> amfId !in ranUePool
    {
      if amfId in ranUePool then ranUePool[amfId] else null
    }

    /** No context of the RAN is under the AMF ID, and none under the RAN ID. */
    ghost predicate Gone(ran: AmfRan, amfId: int, ranId: Option<int>)
      reads this, ran, ranUePool.Values
    {
      && (amfId in ranUePool ==> ranUePool[amfId].ran != ran)
      && (ranId.Some? ==> ranId.value !in ran.ranUeList)
    }

    /** Everything of the other RANs is as it was: pool entries, attached UEs and the links to their contexts. */
    twostate predicate OthersKept(ran: AmfRan)
      reads this, created, ues
    {
      && (forall k {:trigger k in old(ranUePool)} :: k in old(ranUePool) && old(ranUePool[k].ran) != ran ==>
            k in ranUePool && ranUePool[k] == old(ranUePool[k]))
      && (forall w :: w in created && w in old(created) && w.ran != ran ==> w.amfUe == old(w.amfUe))
      && (forall e, a {:trigger old(e.ranUe[a])} :: e in ues && e in old(ues) && a in old(e.ranUe) && old(e.ranUe[a].ran) != ran ==>
            a in e.ranUe && e.ranUe[a] == old(e.ranUe[a]))
    }

    /** `removeRanUeByInvalidUE`: the local release of section 10.6 of TS 38.413, under either identifier. */
    method RemoveByInvalidUe(ran: AmfRan, amfId: int, ranId: Option<int>)
      requires Valid() && ran in rans
      modifies this`ranUePool, this`issued, ran, created`amfUe, ues
      ensures Valid() && (old(Indexed()) ==> Indexed()) && (old(Mutual()) ==> Mutual()) && Gone(ran, amfId, ranId)
      ensures OthersKept(ran) && StayingKept()
      ensures forall k {:trigger k in old(ranUePool)} :: k in old(ranUePool) && k !in ranUePool ==>
                k == amfId || (ranId.Some? && old(ranUePool[k].ranUeNgapId) == ranId.value)
    {
      hide PoolAgrees, ListsAgree, LinksAgree, Indexed, Mutual;
      RemoveHere(ran, amfId);
      if ranId.Some? {
        RemoveNamed(ran, ranId.value);
      }
    }

    /** The first half: what the pool has under the AMF ID, if it is this RAN's. */
    method RemoveHere(ran: AmfRan, amfId: int)
      requires Valid() && ran in rans
      modifies this`ranUePool, this`issued, ran, created`amfUe, ues
      ensures Valid() && (old(Indexed()) ==> Indexed()) && (old(Mutual()) ==> Mutual()) && Gone(ran, amfId, None)
      ensures OthersKept(ran) && StayingKept()
      ensures forall k {:trigger k in old(ranUePool)} :: k in old(ranUePool) && k !in ranUePool ==> k == amfId
    {
      hide PoolAgrees, ListsAgree, LinksAgree, Indexed, Mutual;
      KnownAll();
      var u := Find(amfId);
      if u != null && u.ran == ran {
        RemoveByInvalidId(ran, u);
      }
    }

    /** The second half: what the RAN's list has under the RAN ID. */
    method RemoveNamed(ran: AmfRan, name: int)
      requires Valid() && ran in rans
      modifies this`ranUePool, this`issued, ran, created`amfUe, ues
      ensures Valid() && (old(Indexed()) ==> Indexed()) && (old(Mutual()) ==> Mutual()) && name !in ran.ranUeList
      ensures OthersKept(ran) && StayingKept()
      ensures forall k {:trigger k in old(ranUePool)} :: k in old(ranUePool) && k !in ranUePool ==>
                old(ranUePool[k].ranUeNgapId) == name
    {
      hide PoolAgrees, ListsAgree, LinksAgree, Indexed, Mutual;
      KnownAll();
      var w := ran.Find(name);
      if w != null {
        KnownListed(ran, name);
      }
      RemoveByInvalidId(ran, w);
    }

    /** No context enters the pool, and those that stay keep their UE. */
    twostate predicate StayingKept()
      reads this, created
    {
      forall k {:trigger k in ranUePool} :: k in ranUePool ==>
        && k in old(ranUePool) && ranUePool[k] == old(ranUePool[k])
        && (ranUePool[k] in created && ranUePool[k] in old(created) ==> ranUePool[k].amfUe == old(ranUePool[k].amfUe))
    }

    lemma {:induction false} Known(k: int)
      requires PoolAgrees() && k in ranUePool
      ensures ranUePool[k] in created && Live(ranUePool[k]) && ranUePool[k].amfUeNgapId == k
    {
    }

    lemma {:induction false} KnownAll()
      requires PoolAgrees()
      ensures issued == ranUePool.Keys
      ensures forall k {:trigger k in ranUePool} :: k in ranUePool ==> ranUePool[k] in created && ranUePool[k].amfUeNgapId == k
    {
    }

    lemma {:induction false} KnownOwner(k: int)
      requires PoolAgrees() && LinksAgree() && k in ranUePool
      ensures ranUePool[k].ran in rans && (ranUePool[k].amfUe != null ==> ranUePool[k].amfUe in ues)
    {
      Known(k);
    }

    lemma {:induction false} KnownLinks(e: AmfUe)
      requires LinksAgree() && e in ues
      ensures forall a :: a in e.ranUe ==> e.ranUe[a] in created
    {
    }

    lemma {:induction false} KnownListed(ran: AmfRan, k: int)
      requires ListsAgree() && ran in rans && k in ran.ranUeList
      ensures var u := ran.ranUeList[k]; u in created && Live(u) && u.ran == ran && u.ranUeNgapId == k
    {
    }

    /** The context a message names: under the AMF ID, of this RAN, with the RAN ID it carries, or still unnamed when the
        message is the first one to return or carries no RAN ID. */
    ghost predicate Matches(ran: AmfRan, amfId: int, ranId: Option<int>, first: bool)
      reads this, ranUePool.Values
    {
      && amfId in ranUePool && ranUePool[amfId].ran == ran
      && ranUePool[amfId].ranUeNgapId == if ranId.None? || first then UNSPECIFIED else ranId.value
    }

    /** `ranUeFind`, section 10.6 of TS 38.413: finds the context a message names, or releases whatever this RAN has
        under either of the message's identifiers. */
    method RanUeFind(ran: AmfRan?, amfId: Option<int>, ranId: Option<int>, first: bool) returns (found: RanUe?)
      requires Valid() && (ran != null ==> ran in rans)
      modifies this`ranUePool, this`issued, ran, created`amfUe, ues
      ensures Valid() && (old(Indexed()) ==> Indexed()) && (old(Mutual()) ==> Mutual())
      ensures found != null <==> ran != null && amfId.Some? && old(Matches(ran, amfId.value, ranId, first))
      ensures found != null ==>
                && found == old(ranUePool[amfId.value]) && found.amfUeNgapId == amfId.value && found.ran == ran
                && found.ranUeNgapId == if ranId.None? || first then UNSPECIFIED else ranId.value
      ensures found != null || ran == null || amfId.None? ==>
                unchanged(this) && (ran != null ==> unchanged(ran)) && unchanged(created`amfUe) && unchanged(ues)
      ensures found == null && ran != null && amfId.Some? ==>
                Gone(ran, amfId.value, ranId) && OthersKept(ran) && StayingKept()
      ensures forall k {:trigger k in old(ranUePool)} :: k in old(ranUePool) && k !in ranUePool ==>
                amfId == Some(k) || ranId == Some(old(ranUePool[k].ranUeNgapId))
    {
      if ran == null || amfId.None? {
        return null;
      }
      found := Find(amfId.value);
      if found != null {
        Known(amfId.value);
      }
      if found == null || found.ran != ran {
        RemoveByInvalidUe(ran, amfId.value, ranId);
        return null;
      }
      if ranId.None? || first {
        if found.ranUeNgapId != UNSPECIFIED {
          RemoveByInvalidUe(ran, amfId.value, ranId);
          return null;
        }
      } else if found.ranUeNgapId != ranId.value {
        RemoveByInvalidUe(ran, amfId.value, ranId);
        return null;
      }
    }
  }

  /** The removal of a stale context, whose UE is detached first. */
  method RemoveStale(c: AmfContext, ran: AmfRan, u: RanUe)
    requires c.Valid() && u in c.created && c.Live(u) && u.ran == ran && ran in c.rans
    requires u.amfUe != null ==> u.amfUe in c.ues
    modifies c`ranUePool, c`issued, ran, u`amfUe, u.amfUe
    ensures c.Valid() && (old(c.Indexed()) ==> c.Indexed()) && (old(c.Mutual()) ==> c.Mutual())
    ensures c.ranUePool == old(c.ranUePool) - {u.amfUeNgapId} && ran.ranUeList == old(ran.ranUeList) - {u.ranUeNgapId}
    ensures u.amfUe == null
    ensures old(u.amfUe) != null ==> old(u.amfUe).ranUe == old(u.amfUe.ranUe) - {ran.anType}
  {
    if u.amfUe != null {
      c.Part(u);
    }
    c.Remove(u);
  }

  /** `handleInitialUEMessageMain` before the NAS message: a context that already has the RAN's ID is stale and removed,
      so the new one never displaces an entry. Nothing of any other context changes. */
  method InitialUeMessage(c: AmfContext, ran: AmfRan, ranId: int, id: Option<int>) returns (u: RanUe?)
    requires c.Valid() && c.Indexed() && ran in c.rans && (id.Some? ==> id.value !in c.issued)
    modifies c`ranUePool, c`issued, c`created, ran, ran.Under(ranId)`amfUe, Owners(ran.Under(ranId))
    ensures c.Valid() && c.Indexed() && (old(c.Mutual()) ==> c.Mutual()) && (u == null <==> id.None?)
    ensures u != null ==> fresh(u) && u.ran == ran && u.ranUeNgapId == ranId && u.amfUeNgapId == id.value && u.amfUe == null
    ensures c.created == old(c.created) + if u == null then {} else {u}
    ensures var stale := set w | w in old(ran.Under(ranId)) :: w.amfUeNgapId;
            c.ranUePool == if u == null then old(c.ranUePool) - stale else (old(c.ranUePool) - stale)[id.value := u]
    ensures ran.ranUeList ==
              if u == null || ranId == UNSPECIFIED then old(ran.ranUeList) - {ranId} else old(ran.ranUeList)[ranId := u]
    ensures forall w :: w in old(ran.Under(ranId)) ==> w.amfUe == null
    ensures forall e :: e in old(Owners(ran.Under(ranId))) ==> e.ranUe == old(e.ranUe) - {ran.anType}
  {
    hide AmfContext.PoolAgrees, AmfContext.ListsAgree, AmfContext.LinksAgree, AmfContext.Indexed, AmfContext.Mutual;
    c.KnownAll();
    var stale := ran.Find(ranId);
    if stale != null {
      c.KnownListed(ran, ranId);
      c.KnownOwner(stale.amfUeNgapId);
      RemoveStale(c, ran, stale);
    }
    assert ranId !in ran.ranUeList;
    c.KnownAll();
    u := c.NewRanUe(ran, ranId, id);
  }

  /** A context is created for one RAN and switched to another, which names it differently: from then on a list holds it
      under a key that is not its name. */
  method PathSwitchBreaks(switched: bool) returns (c: AmfContext, u: RanUe)
    ensures fresh(c) && fresh(u) && u in c.created && c.Live(u) && !c.ListsAgree()
  {
    var source := new AmfRan(ThreeGpp);
    var target := new AmfRan(ThreeGpp);
    c := new AmfContext({source, target}, {});
    u := c.NewRanUe(source, 1, Some(1));
    assert !c.Unlisted(u) by {
      assert source in c.rans && 1 in source.ranUeList && source.ranUeList[1] == u;
    }
    c.PathSwitch(u, target, 2, switched);
  }

  /** An attached context is switched to a RAN of the other access type: the UE's link is left under the old one. */
  method SwitchBreaks() returns (c: AmfContext, u: RanUe)
    ensures fresh(c) && fresh(u) && u in c.created && c.Live(u) && !c.Valid()
  {
    var source := new AmfRan(ThreeGpp);
    var target := new AmfRan(NonThreeGpp);
    var e := new AmfUe();
    c := new AmfContext({source, target}, {e});
    u := c.NewRanUe(source, 1, Some(1));
    c.Attach(e, u);
    assert !c.Unlinked(u) by {
      assert e in c.ues && ThreeGpp in e.ranUe && e.ranUe[ThreeGpp] == u;
    }
    c.SwitchToRan(u, target, 1);
  }

  /** A context is removed, its AMF ID issued again, and the context removed once more: the newer one loses its pool entry
      and stays in its list. */
  method RemoveAgainBreaks() returns (c: AmfContext, w: RanUe)
    ensures fresh(c) && fresh(w) && w in c.created && !c.Live(w) && !c.Valid()
  {
    var ran := new AmfRan(ThreeGpp);
    c := new AmfContext({ran}, {});
    var u := c.NewRanUe(ran, 1, Some(1));
    c.Remove(u);
    w := c.NewRanUe(ran, 2, Some(1));
    assert AmfContext.Listed(w.ran, w);
    c.RemoveAgain(u);
  }

  /** A context is attached to two UEs: the first one's link is not taken back. */
  method AttachBreaks() returns (c: AmfContext, u: RanUe)
    ensures fresh(c) && fresh(u) && u in c.created && c.Live(u) && !c.Valid()
  {
    var ran := new AmfRan(ThreeGpp);
    var e := new AmfUe();
    var e' := new AmfUe();
    c := new AmfContext({ran}, {e, e'});
    u := c.NewRanUe(ran, 1, Some(1));
    c.Attach(e, u);
    assert !c.Unlinked(u) by {
      assert e in c.ues && ThreeGpp in e.ranUe && e.ranUe[ThreeGpp] == u;
    }
    c.Attach(e', u);
  }

  /** A handover target is named like a context its RAN already has: that one is live and in no list. */
  method NamingBreaks() returns (c: AmfContext, w: RanUe)
    ensures fresh(c) && fresh(w) && w in c.created && c.Live(w) && c.Valid() && !c.Indexed()
  {
    var ran := new AmfRan(ThreeGpp);
    c := new AmfContext({ran}, {});
    w := c.NewRanUe(ran, 1, Some(1));
    var u := c.NewRanUe(ran, UNSPECIFIED, Some(2));
    assert c.Unlisted(u) by {
      assert forall k :: k in ran.ranUeList ==> ran.ranUeList[k] == w;
    }
    c.NameContext(u, 1);
  }

  /** `handleHandoverRequestAcknowledgeMain` up to the naming of the target context. The tables agree afterwards exactly
      unless a list held that context already, and every named context is in its list exactly when the name was free. */
  method HandoverAcknowledge(c: AmfContext, ran: AmfRan, amfId: Option<int>, ranId: Option<int>) returns (u: RanUe?)
    requires c.Valid() && c.Indexed() && ran in c.rans
    modifies c`ranUePool, c`issued, ran, c.created`amfUe, c.created`ranUeNgapId, c.ues
    ensures u != null <==> amfId.Some? && old(c.Matches(ran, amfId.value, ranId, true))
    ensures u == null || ranId.None? ==> c.Valid() && c.Indexed()
    ensures old(c.Mutual()) ==> c.Mutual()
    ensures c.created == old(c.created)
    ensures u != null ==>
              && c.ranUePool == old(c.ranUePool) && unchanged(c.created`amfUe)
              && forall w :: w in c.created && w != u ==> w.ranUeNgapId == old(w.ranUeNgapId)
    ensures u == null && amfId.None? ==>
              unchanged(c) && unchanged(c.created`amfUe) && unchanged(c.created`ranUeNgapId)
    ensures u == null && amfId.Some? ==>
              c.Gone(ran, amfId.value, ranId) && c.OthersKept(ran) && c.StayingKept() && unchanged(c.created`ranUeNgapId)
    ensures forall k {:trigger k in old(c.ranUePool)} :: k in old(c.ranUePool) && k !in c.ranUePool ==>
              amfId == Some(k) || ranId == Some(old(c.ranUePool[k].ranUeNgapId))
    ensures u != null ==> u == old(c.ranUePool[amfId.value]) && c.Live(u)
    ensures u != null ==> u.ranUeNgapId == if ranId.Some? then ranId.value else UNSPECIFIED
    ensures u != null && ranId.Some? ==>
              && (c.Valid() <==> ranId.value == UNSPECIFIED || old(UNSPECIFIED !in ran.ranUeList)
                                 || old(ran.ranUeList[UNSPECIFIED]) != u)
              && (c.Indexed() <==> ranId.value == UNSPECIFIED || old(ranId.value !in ran.ranUeList)
                                   || old(ran.ranUeList[ranId.value]) == u)
  {
    u := c.RanUeFind(ran, amfId, ranId, true);
    if u != null && ranId.Some? {
      c.Known(amfId.value);
      assert c.Unlisted(u) <==> UNSPECIFIED !in ran.ranUeList || ran.ranUeList[UNSPECIFIED] != u;
      c.NameContext(u, ranId.value);
    }
  }

  // ---------------------------------------------------------------- runs

  /** Steps of the AMF, with contexts named by their AMF ID. */
  datatype Step =
    | Create(ran: AmfRan, name: int, id: Option<int>)
    | InitialUe(ran: AmfRan, name: int, id: Option<int>)
    | Drop(key: int)
    | Switch(key: int, ran: AmfRan, name: int)
    | Reset(ran: AmfRan)
    | AttachUe(key: int, ue: AmfUe)
    | Message(ran: AmfRan, amfId: Option<int>, ranId: Option<int>, first: bool)
    | Acknowledge(ran: AmfRan, amfId: Option<int>, ranId: Option<int>)

  /** The conditions of a step's callers: IDs come unused from the generator, a RAN does not name two contexts alike, a
      switch stays on its access type, and a context already attached stays with its UE. */
  predicate Allowed(c: AmfContext, s: Step)
    reads c, c.rans, c.ranUePool.Values
  {
    match s
    case Create(ran, name, id) =>
      ran in c.rans && (id.None? || id.value !in c.issued) && (name == UNSPECIFIED || name !in ran.ranUeList)
    case InitialUe(ran, _, id) => ran in c.rans && (id.None? || id.value !in c.issued)
    case Drop(key) => key in c.ranUePool
    case Switch(key, ran, name) =>
      key in c.ranUePool && ran in c.rans && c.ranUePool[key].ran.anType == ran.anType && name !in ran.ranUeList
    case Reset(ran) => ran in c.rans
    case AttachUe(key, ue) =>
      key in c.ranUePool && ue in c.ues && (c.ranUePool[key].amfUe == null || c.ranUePool[key].amfUe == ue)
    case Message(ran, _, _, _) => ran in c.rans
    case Acknowledge(ran, _, ranId) =>
      ran in c.rans && (ranId.Some? ==> ranId.value !in ran.ranUeList && UNSPECIFIED !in ran.ranUeList)
  }

  /** Whether a step is about the context with this AMF ID, RAN, name and UE. */
  predicate Concerns(s: Step, k: int, ran: AmfRan, name: int, ue: AmfUe?) {
    match s
    case Create(_, _, _) => false
    case InitialUe(r, n, _) => r == ran && n == name
    case Drop(key) => key == k
    case Switch(key, _, _) => key == k
    case Reset(r) => r == ran
    case AttachUe(key, e) => key == k || e == ue
    case Message(r, amfId, ranId, _) => r == ran && (amfId == Some(k) || ranId == Some(name))
    case Acknowledge(r, amfId, ranId) => r == ran && (amfId == Some(k) || ranId == Some(name))
  }

  /** The context is what it was: in the pool, of its RAN, with its name and its UE. */
  twostate predicate Same(c: AmfContext, k: int)
    reads c, c.created
  {
    && k in old(c.ranUePool) && k in c.ranUePool && c.ranUePool[k] == old(c.ranUePool[k])
    && c.ranUePool[k] in c.created && old(c.ranUePool[k] in c.created)
    && c.ranUePool[k].ran == old(c.ranUePool[k].ran) && c.ranUePool[k].ranUeNgapId == old(c.ranUePool[k].ranUeNgapId)
    && c.ranUePool[k].amfUe == old(c.ranUePool[k].amfUe)
  }

  twostate predicate SameUnless(c: AmfContext, s: Step)
    reads c, c.created
  {
    forall k {:trigger k in old(c.ranUePool)} :: k in old(c.ranUePool) && old(c.ranUePool[k] in c.created) ==>
      old(Concerns(s, k, c.ranUePool[k].ran, c.ranUePool[k].ranUeNgapId, c.ranUePool[k].amfUe)) || Same(c, k)
  }

  ghost predicate Consistent(c: AmfContext)
    reads c, c.created, c.rans, c.ues
  {
    c.Valid() && c.Indexed() && c.Mutual()
  }

  /** The pool has exactly this new entry more: a context that was not there before. */
  twostate predicate Entered(c: AmfContext, keys: set<int>, id: Option<int>, ran: AmfRan, name: int)
    reads c, c.created
  {
    match id
    case None => c.ranUePool.Keys == keys && c.created == old(c.created)
    case Some(k) =>
      && c.ranUePool.Keys == keys + {k} && c.ranUePool[k] in c.created && c.ranUePool[k] !in old(c.created)
      && c.ranUePool[k].ran == ran && c.ranUePool[k].ranUeNgapId == name && c.ranUePool[k].amfUe == null
      && c.created == old(c.created) + {c.ranUePool[k]}
  }

  /** The IDs of what a RAN's list has under a name. */
  ghost function Ids(us: set<RanUe>): set<int>
    reads us
  {
    set u | u in us :: u.amfUeNgapId
  }

  /** What an allowed step does to the pool and to the context it is about. */
  twostate predicate Effect(c: AmfContext, s: Step)
    reads c, c.created, c.rans
  {
    match s
    case Create(ran, name, id) => Entered(c, old(c.ranUePool.Keys), id, ran, name)
    case InitialUe(ran, name, id) =>
      ran in old(c.rans) && Entered(c, old(c.ranUePool.Keys - Ids(ran.Under(name))), id, ran, name)
    case Drop(key) => c.ranUePool == old(c.ranUePool) - {key}
    case Switch(key, ran, name) =>
      && c.ranUePool == old(c.ranUePool) && key in c.ranUePool && c.ranUePool[key] in c.created
      && c.ranUePool[key].ran == ran && c.ranUePool[key].ranUeNgapId == name
    case Reset(ran) =>
      ran in old(c.rans) && forall k {:trigger k in c.ranUePool} ::
        k in c.ranUePool <==> k in old(c.ranUePool) && old(c.ranUePool[k] in c.created) && !old(AmfContext.Listed(ran, c.ranUePool[k]))
    case AttachUe(key, ue) =>
      && c.ranUePool == old(c.ranUePool) && key in c.ranUePool && c.ranUePool[key] in c.created
      && c.ranUePool[key].amfUe == ue
      && forall k {:trigger k in c.ranUePool} :: k in c.ranUePool && k != key && c.ranUePool[k] in c.created ==>
           c.ranUePool[k].amfUe == ue ==> c.ranUePool[k].ran.anType != c.ranUePool[key].ran.anType
    case Message(ran, amfId, ranId, first) => Answered(c, ran, amfId, ranId, first)
    case Acknowledge(ran, amfId, ranId) =>
      && Answered(c, ran, amfId, ranId, true)
      && (amfId.Some? && ranId.Some? && old(Found(c, ran, amfId.value, ranId, true)) ==>
            && amfId.value in c.ranUePool && c.ranUePool[amfId.value] in c.created
            && c.ranUePool[amfId.value].ranUeNgapId == ranId.value)
  }

  /** The context a message names is in the pool: of this RAN, under the name the message gives it, or still unnamed. */
  ghost predicate Found(c: AmfContext, ran: AmfRan, amfId: int, ranId: Option<int>, first: bool)
    reads c, c.created
  {
    && amfId in c.ranUePool && c.ranUePool[amfId] in c.created && c.ranUePool[amfId].ran == ran
    && c.ranUePool[amfId].ranUeNgapId == if ranId.None? || first then UNSPECIFIED else ranId.value
  }

  /** A message that names a context leaves the pool as it is; otherwise nothing of this RAN is left under its IDs. */
  twostate predicate Answered(c: AmfContext, ran: AmfRan, amfId: Option<int>, ranId: Option<int>, first: bool)
    reads c, c.created, c.rans
  {
    if amfId.None? || old(Found(c, ran, amfId.value, ranId, first)) then c.ranUePool == old(c.ranUePool)
    else
      && (amfId.value in c.ranUePool ==> c.ranUePool[amfId.value] in c.created && c.ranUePool[amfId.value].ran != ran)
      && (ranId.Some? ==> ran in c.rans && ranId.value !in ran.ranUeList)
  }

  lemma {:induction false} UnderKnown(c: AmfContext, ran: AmfRan, name: int)
    requires c.Valid() && ran in c.rans
    ensures ran.Under(name) <= c.created && Owners(ran.Under(name)) <= c.ues
    ensures forall w :: w in ran.Under(name) ==> w.amfUeNgapId in c.ranUePool && c.ranUePool[w.amfUeNgapId] == w
    ensures forall w :: w in ran.Under(name) ==> w.ran == ran && w.ranUeNgapId == name
  {
  }

  method TakeCreate(c: AmfContext, s: Step)
    requires s.Create? && Consistent(c) && Allowed(c, s)
    modifies c`ranUePool, c`issued, c`created, c.rans
    ensures Consistent(c) && SameUnless(c, s) && Effect(c, s) && fresh(c.created - old(c.created))
  {
    hide AmfContext.PoolAgrees, AmfContext.ListsAgree, AmfContext.LinksAgree, AmfContext.Indexed, AmfContext.Mutual;
    c.KnownAll();
    var _ := c.NewRanUe(s.ran, s.name, s.id);
  }

  method TakeInitialUe(c: AmfContext, s: Step)
    requires s.InitialUe? && Consistent(c) && Allowed(c, s)
    modifies c`ranUePool, c`issued, c`created, c.rans, c.ues, c.created`amfUe
    ensures Consistent(c) && SameUnless(c, s) && Effect(c, s) && fresh(c.created - old(c.created))
  {
    hide AmfContext.PoolAgrees, AmfContext.ListsAgree, AmfContext.LinksAgree, AmfContext.Indexed, AmfContext.Mutual;
    c.KnownAll();
    c.KnownNames(s.ran);
    UnderKnown(c, s.ran, s.name);
    var _ := InitialUeMessage(c, s.ran, s.name, s.id);
  }

  method TakeDrop(c: AmfContext, s: Step)
    requires s.Drop? && Consistent(c) && Allowed(c, s)
    modifies c`ranUePool, c`issued, c.rans, c.ues, c.created`amfUe
    ensures Consistent(c) && SameUnless(c, s) && Effect(c, s) && fresh(c.created - old(c.created))
  {
    hide AmfContext.PoolAgrees, AmfContext.ListsAgree, AmfContext.LinksAgree, AmfContext.Indexed, AmfContext.Mutual;
    c.KnownAll();
    c.KnownOwner(s.key);
    c.Remove(c.ranUePool[s.key]);
  }

  method TakeSwitch(c: AmfContext, s: Step)
    requires s.Switch? && Consistent(c) && Allowed(c, s)
    modifies c.rans, c.created`ran, c.created`ranUeNgapId
    ensures Consistent(c) && SameUnless(c, s) && Effect(c, s) && fresh(c.created - old(c.created))
  {
    hide AmfContext.PoolAgrees, AmfContext.ListsAgree, AmfContext.LinksAgree, AmfContext.Indexed, AmfContext.Mutual;
    c.KnownAll();
    c.KnownOwner(s.key);
    c.SwitchToRan(c.ranUePool[s.key], s.ran, s.name);
  }

  method TakeReset(c: AmfContext, s: Step)
    requires s.Reset? && Consistent(c) && Allowed(c, s)
    modifies c`ranUePool, c`issued, c.rans, c.ues, c.created`amfUe
    ensures Consistent(c) && SameUnless(c, s) && Effect(c, s) && fresh(c.created - old(c.created))
  {
    hide AmfContext.PoolAgrees, AmfContext.ListsAgree, AmfContext.LinksAgree, AmfContext.Indexed, AmfContext.Mutual;
    c.KnownAll();
    c.KnownNames(s.ran);
    c.RemoveAllRanUe(s.ran);
  }

  method TakeAttachUe(c: AmfContext, s: Step)
    requires s.AttachUe? && Consistent(c) && Allowed(c, s)
    modifies c.ues, c.created`amfUe
    ensures Consistent(c) && SameUnless(c, s) && Effect(c, s) && fresh(c.created - old(c.created))
  {
    hide AmfContext.PoolAgrees, AmfContext.ListsAgree, AmfContext.LinksAgree, AmfContext.Indexed, AmfContext.Mutual;
    c.KnownAll();
    var u := c.ranUePool[s.key];
    if u.amfUe == null {
      c.KnownUnlinked(u);
    }
    if u.ran.anType in s.ue.ranUe {
      c.LinkedHere(s.ue, u.ran.anType, u);
    }
    c.Attach(s.ue, u);
    c.OnlyOne(c.ranUePool[s.key]);
  }

  method TakeMessage(c: AmfContext, s: Step)
    requires s.Message? && Consistent(c) && Allowed(c, s)
    modifies c`ranUePool, c`issued, c.rans, c.ues, c.created`amfUe
    ensures Consistent(c) && SameUnless(c, s) && Effect(c, s) && fresh(c.created - old(c.created))
  {
    hide AmfContext.PoolAgrees, AmfContext.ListsAgree, AmfContext.LinksAgree, AmfContext.Indexed, AmfContext.Mutual;
    c.KnownAll();
    var _ := c.RanUeFind(s.ran, s.amfId, s.ranId, s.first);
    c.KnownAll();
  }

  method TakeAcknowledge(c: AmfContext, s: Step)
    requires s.Acknowledge? && Consistent(c) && Allowed(c, s)
    modifies c`ranUePool, c`issued, c.rans, c.ues, c.created`amfUe, c.created`ranUeNgapId
    ensures Consistent(c) && SameUnless(c, s) && Effect(c, s) && fresh(c.created - old(c.created))
  {
    hide AmfContext.PoolAgrees, AmfContext.ListsAgree, AmfContext.LinksAgree, AmfContext.Indexed, AmfContext.Mutual;
    c.KnownAll();
    var _ := HandoverAcknowledge(c, s.ran, s.amfId, s.ranId);
    c.KnownAll();
  }

  /** One step, taken when its callers' conditions hold and passed over otherwise. Contexts that it does not concern stay
      what they were. */
  method Take(c: AmfContext, s: Step)
    requires Consistent(c)
    modifies c`ranUePool, c`issued, c`created, c.rans, c.ues, c.created
    ensures Consistent(c) && SameUnless(c, s) && fresh(c.created - old(c.created))
    ensures if old(Allowed(c, s)) then Effect(c, s) else unchanged(c) && unchanged(c.rans) && unchanged(c.ues) && unchanged(c.created)
  {
    if !Allowed(c, s) {
      return;
    }
    match s
    case Create(_, _, _) => TakeCreate(c, s);
    case InitialUe(_, _, _) => TakeInitialUe(c, s);
    case Drop(_) => TakeDrop(c, s);
    case Switch(_, _, _) => TakeSwitch(c, s);
    case Reset(_) => TakeReset(c, s);
    case AttachUe(_, _) => TakeAttachUe(c, s);
    case Message(_, _, _, _) => TakeMessage(c, s);
    case Acknowledge(_, _, _) => TakeAcknowledge(c, s);
  }

  /** In every state a run reaches, whatever its steps, the pool, the lists, the generator and the links agree; and a context
      that no step of the run concerns is still in the pool under its ID, of its RAN, with its name and its UE, and so in
      its RAN's list and linked by its UE. */
  method Run(c: AmfContext, steps: seq<Step>)
    requires Consistent(c)
    modifies c`ranUePool, c`issued, c`created, c.rans, c.ues, c.created
    ensures Consistent(c)
    ensures forall k {:trigger k in old(c.ranUePool)} :: k in old(c.ranUePool) && old(c.ranUePool[k] in c.created) ==>
              old(Concerned(steps, k, c.ranUePool[k].ran, c.ranUePool[k].ranUeNgapId, c.ranUePool[k].amfUe)) || Same(c, k)
  {
    hide AmfContext.Valid, AmfContext.Indexed, AmfContext.Mutual, Concerns;
    for i := 0 to |steps|
      invariant Consistent(c) && fresh(c.created - old(c.created))
      invariant forall k {:trigger k in old(c.ranUePool)} :: k in old(c.ranUePool) && old(c.ranUePool[k] in c.created) ==>
                  old(Concerned(steps[..i], k, c.ranUePool[k].ran, c.ranUePool[k].ranUeNgapId, c.ranUePool[k].amfUe)) || Same(c, k)
    {
      ConcernedStep(steps, i);
      Take(c, steps[i]);
    }
    assert steps[..|steps|] == steps;
  }

  predicate Concerned(steps: seq<Step>, k: int, ran: AmfRan, name: int, ue: AmfUe?) {
    exists s :: s in steps && Concerns(s, k, ran, name, ue)
  }

  lemma {:induction false} ConcernedStep(steps: seq<Step>, i: nat)
    requires i < |steps|
    ensures forall k, ran, name, ue {:trigger Concerned(steps[..i], k, ran, name, ue)} ::
              Concerned(steps[..i], k, ran, name, ue) || Concerns(steps[i], k, ran, name, ue)
              <==> Concerned(steps[..i + 1], k, ran, name, ue)
  {
    hide Concerns;
    assert steps[..i + 1] == steps[..i] + [steps[i]];
    forall k, ran, name, ue
      ensures Concerned(steps[..i], k, ran, name, ue) || Concerns(steps[i], k, ran, name, ue)
              <==> Concerned(steps[..i + 1], k, ran, name, ue)
    {
      if Concerned(steps[..i], k, ran, name, ue) {
        var s :| s in steps[..i] && Concerns(s, k, ran, name, ue);
        assert s in steps[..i + 1];
      }
      assert steps[i] in steps[..i + 1];
    }
  }
}