// RTPSources: the source table object. It drives the key hash table through its
// list-and-cursor view and updates the entries in place; every method is proved
// to perform the matching operation of SourceTable.
module Sources {
  import opened Types
  import opened SourceState
  import opened SourceTable
  import opened SourceData
  import Reception
  import SourceCounters
  import TableView

  // The object at a list position.
  function At(order: seq<(uint32, SourceData)>, i: nat): SourceData
    requires i < |order|
  {
    order[i].1
  }

  // Each listed object has its own key and its own statistics.
  ghost predicate Listed(order: seq<(uint32, SourceData)>, repr: set<object>) {
    && (forall i {:trigger At(order, i)} :: 0 <= i < |order| ==>
          order[i].0 == At(order, i).ssrc && At(order, i) in repr && At(order, i).stats in repr)
    && (forall i, j {:trigger At(order, i), At(order, j)} :: 0 <= i < j < |order| ==>
          At(order, i).ssrc != At(order, j).ssrc && At(order, i).stats != At(order, j).stats)
  }

  ghost predicate Mirrors(order: seq<(uint32, SourceData)>, entries: seq<Source>, repr: set<object>)
    requires Listed(order, repr)
    reads repr
  {
    && |entries| == |order|
    && forall i {:trigger At(order, i)} :: 0 <= i < |entries| ==> At(order, i).State() == entries[i]
  }

  lemma MirrorsAppend(order: seq<(uint32, SourceData)>, entries: seq<Source>, repr: set<object>, x: SourceData)
    requires Listed(order, repr) && Mirrors(order, entries, repr)
    requires x !in repr && x.stats !in repr && TableView.Find(order, x.ssrc) == |order|
    ensures Listed(order + [(x.ssrc, x)], repr + {x, x.stats})
    ensures Mirrors(order + [(x.ssrc, x)], entries + [x.State()], repr + {x, x.stats})
    ensures forall i {:trigger At(order, i)} :: 0 <= i < |order| ==> At(order + [(x.ssrc, x)], i) == At(order, i)
  {
    ListedAppend(order, repr, x);
    var o := order + [(x.ssrc, x)];
    forall i | 0 <= i < |order| ensures At(o, i).State() == entries[i] {
      assert At(o, i) == At(order, i);
    }
  }

  lemma ListedAppend(order: seq<(uint32, SourceData)>, repr: set<object>, x: SourceData)
    requires Listed(order, repr) && x !in repr && x.stats !in repr && TableView.Find(order, x.ssrc) == |order|
    ensures Listed(order + [(x.ssrc, x)], repr + {x, x.stats})
  {
    var o := order + [(x.ssrc, x)];
    forall i | 0 <= i < |order| ensures At(o, i) == At(order, i) && o[i].0 == At(o, i).ssrc {
      assert At(o, i) == At(order, i);
    }
  }

  lemma ListedRemove(order: seq<(uint32, SourceData)>, repr: set<object>, i: nat)
    requires Listed(order, repr) && i < |order|
    ensures Listed(RemoveAt(order, i), repr)
  {
    forall k | 0 <= k < |order| - 1
      ensures At(RemoveAt(order, i), k) == At(order, Past(k, i))
    {
      RemovedAt(order, i, k);
    }
  }

  // Where position k was before position i was removed.
  function Past(k: nat, i: nat): nat {
    if k < i then k else k + 1
  }

  lemma RemovedAt(order: seq<(uint32, SourceData)>, i: nat, k: nat)
    requires i < |order| && k < |order| - 1
    ensures RemoveAt(order, i)[k] == order[Past(k, i)]
    ensures At(RemoveAt(order, i), k) == At(order, Past(k, i))
  {
  }

  lemma MirrorsRemove(order: seq<(uint32, SourceData)>, entries: seq<Source>, repr: set<object>, i: nat)
    requires Listed(order, repr) && Mirrors(order, entries, repr) && i < |order|
    ensures Listed(RemoveAt(order, i), repr)
    ensures Mirrors(RemoveAt(order, i), RemoveAt(entries, i), repr)
  {
    ListedRemove(order, repr, i);
    forall k | 0 <= k < |order| - 1
      ensures At(RemoveAt(order, i), k).State() == RemoveAt(entries, i)[k]
    {
      RemovedAt(order, i, k);
    }
  }

  lemma FindByKey(order: seq<(uint32, SourceData)>, entries: seq<Source>, ssrc: uint32)
    requires |order| == |entries| && forall i :: 0 <= i < |order| ==> order[i].0 == entries[i].ssrc
    ensures TableView.Find(order, ssrc) == Find(entries, ssrc)
  {
  }

  // The list position of an SSRC is the position of its entry.
  lemma FindAgrees(order: seq<(uint32, SourceData)>, entries: seq<Source>, repr: set<object>, ssrc: uint32)
    requires Listed(order, repr) && Mirrors(order, entries, repr)
    ensures TableView.Find(order, ssrc) == Find(entries, ssrc)
  {
    forall i | 0 <= i < |order| ensures order[i].0 == entries[i].ssrc {
      assert At(order, i).State() == entries[i];
    }
    FindByKey(order, entries, ssrc);
  }

  class RTPSources {
    const probationtype: ProbationType
    var sourcelist: TableView.View<uint32, SourceData>
    var owndata: SourceData?
    var totalcount: int
    var sendercount: int
    var activecount: int
    ghost var ownpos: nat           // where the own entry is listed
    ghost var entries: seq<Source>  // the states of the listed objects, in order
    ghost var repr: set<object>     // the listed objects and their statistics

    ghost predicate OwnOk()
      reads this`sourcelist, this`owndata, this`ownpos
    {
      owndata != null ==> ownpos < |sourcelist.order| && At(sourcelist.order, ownpos) == owndata
    }

    ghost predicate Valid()
      reads this`sourcelist, this`owndata, this`ownpos, this`entries, this`repr, repr
    {
      this !in repr && OwnOk() && Listed(sourcelist.order, repr) && Mirrors(sourcelist.order, entries, repr)
    }

    ghost function Value(): Table
      reads this
    {
      Table(entries, if owndata == null then None else Some(owndata.ssrc),
            totalcount, sendercount, activecount, probationtype)
    }

    // The table this object represents, if it is a valid one.
    ghost function Abs(): Option<Table>
      reads this, repr
    {
      if Valid() then Some(Value()) else None
    }

    // srcdat is the listed object at pos.
    ghost predicate Holds(srcdat: SourceData, pos: nat)
      reads this, repr
    {
      Abs().Some? && pos < |entries| == |sourcelist.order| && srcdat == At(sourcelist.order, pos)
    }

    lemma StateAt(srcdat: SourceData, pos: nat)
      requires Holds(srcdat, pos)
      ensures srcdat.State() == entries[pos] && srcdat.ssrc == entries[pos].ssrc
    {
    }

    constructor (probtype: ProbationType)
      ensures Abs() == Some(Empty(probtype)) && repr == {}
    {
      probationtype := probtype;
      sourcelist := TableView.View([], TableView.Dangling);
      owndata := null;
      totalcount, sendercount, activecount := 0, 0, 0;
      entries, repr := [], {};
    }

    // Bring the mirror up to date after the object at pos has been changed.
    ghost method Commit(pos: nat)
      requires this !in repr && OwnOk() && Listed(sourcelist.order, repr)
      requires pos < |entries| == |sourcelist.order| && At(sourcelist.order, pos).State().ssrc == entries[pos].ssrc
      requires forall k :: 0 <= k < |entries| && k != pos ==> At(sourcelist.order, k).State() == entries[k]
      modifies this`entries
      ensures Abs() == Some(Update(old(Value()), pos, At(sourcelist.order, pos).State()))
    {
      entries := entries[pos := At(sourcelist.order, pos).State()];
    }

    // ---- Updating one listed object ----

    method UpdateMessageTime(srcdat: SourceData, ghost pos: nat, now: real)
      requires Holds(srcdat, pos)
      modifies this`entries, srcdat, srcdat.stats
      ensures Abs() == Some(Update(old(Value()), pos, old(entries)[pos].WithMessageTime(now)))
    {
      srcdat.UpdateMessageTime(now);
      forall k | 0 <= k < |entries| && k != pos ensures At(sourcelist.order, k).State() == entries[k] {
        assert old(At(sourcelist.order, k).State()) == entries[k];
      }
      Commit(pos);
    }

    method ReceiveBYE(srcdat: SourceData, ghost pos: nat, now: real)
      requires Holds(srcdat, pos)
      modifies this`entries, srcdat, srcdat.stats
      ensures Abs() == Some(Update(old(Value()), pos, ProcessBye(old(entries)[pos], now)))
    {
      srcdat.ProcessBYEPacket(now);
      forall k | 0 <= k < |entries| && k != pos ensures At(sourcelist.order, k).State() == entries[k] {
        assert old(At(sourcelist.order, k).State()) == entries[k];
      }
      Commit(pos);
    }

    method ReceiveSDESItem(srcdat: SourceData, ghost pos: nat, id: int, data: seq<byte>, now: real)
      returns (cnamecollis: bool)
      requires Holds(srcdat, pos)
      modifies this`entries, srcdat, srcdat.stats
      ensures Abs() == Some(Update(old(Value()), pos, ProcessSdes(old(entries)[pos], id, data, now).src))
      ensures cnamecollis == ProcessSdes(old(entries)[pos], id, data, now).cnamecollision
    {
      cnamecollis := srcdat.ProcessSDESItem(id, data, now);
      forall k | 0 <= k < |entries| && k != pos ensures At(sourcelist.order, k).State() == entries[k] {
        assert old(At(sourcelist.order, k).State()) == entries[k];
      }
      Commit(pos);
    }

    method ReceiveRTP(srcdat: SourceData, ghost pos: nat, p: Packet, now: real, handled: bool) returns (stored: bool)
      requires Holds(srcdat, pos) && Reception.Increasing(entries[pos].packetlist)
      modifies this`entries, srcdat, srcdat.stats
      ensures Abs() == Some(Update(old(Value()), pos, ProcessRtp(old(entries)[pos], p, now, handled).src))
      ensures stored == ProcessRtp(old(entries)[pos], p, now, handled).stored
    {
      stored := srcdat.ProcessRTPPacket(p, now, handled);
      forall k | 0 <= k < |entries| && k != pos ensures At(sourcelist.order, k).State() == entries[k] {
        assert old(At(sourcelist.order, k).State()) == entries[k];
      }
      Commit(pos);
    }

    method SetCSRC(srcdat: SourceData, ghost pos: nat)
      requires Holds(srcdat, pos)
      modifies this`entries, srcdat, srcdat.stats
      ensures Abs() == Some(Update(old(Value()), pos, SetCsrc(old(entries)[pos])))
    {
      srcdat.SetCSRC();
      forall k | 0 <= k < |entries| && k != pos ensures At(sourcelist.order, k).State() == entries[k] {
        assert old(At(sourcelist.order, k).State()) == entries[k];
      }
      Commit(pos);
    }

    method SetDataAddress(srcdat: SourceData, ghost pos: nat, a: Option<Address>, isrtp: bool)
      requires Holds(srcdat, pos)
      modifies this`entries, srcdat, srcdat.stats
      ensures Abs() == Some(Update(old(Value()), pos, SetAddress(old(entries)[pos], a, isrtp)))
    {
      srcdat.SetDataAddress(a, isrtp);
      forall k | 0 <= k < |entries| && k != pos ensures At(sourcelist.order, k).State() == entries[k] {
        assert old(At(sourcelist.order, k).State()) == entries[k];
      }
      Commit(pos);
    }

    method SendRTP(srcdat: SourceData, ghost pos: nat, now: real)
      requires Holds(srcdat, pos)
      modifies this`entries, srcdat, srcdat.stats
      ensures Abs() == Some(Update(old(Value()), pos, SentRtp(old(entries)[pos], now)))
    {
      srcdat.SentRTPPacket(now);
      forall k | 0 <= k < |entries| && k != pos ensures At(sourcelist.order, k).State() == entries[k] {
        assert old(At(sourcelist.order, k).State()) == entries[k];
      }
      Commit(pos);
    }

    method TakeNextPacket(srcdat: SourceData, ghost pos: nat) returns (p: Option<Packet>)
      requires Holds(srcdat, pos)
      modifies this`entries, srcdat, srcdat.stats
      ensures Abs() == Some(Update(old(Value()), pos, NextPacket(old(entries)[pos]).src))
      ensures p == NextPacket(old(entries)[pos]).packet
    {
      p := srcdat.GetNextPacket();
      forall k | 0 <= k < |entries| && k != pos ensures At(sourcelist.order, k).State() == entries[k] {
        assert old(At(sourcelist.order, k).State()) == entries[k];
      }
      Commit(pos);
    }

    method ClearSenderFlag(srcdat: SourceData, ghost pos: nat)
      requires Holds(srcdat, pos)
      modifies this`entries, srcdat, srcdat.stats
      ensures Abs() == Some(Update(old(Value()), pos, old(entries)[pos].(issender := false)))
    {
      srcdat.ClearSenderFlag();
      forall k | 0 <= k < |entries| && k != pos ensures At(sourcelist.order, k).State() == entries[k] {
        assert old(At(sourcelist.order, k).State()) == entries[k];
      }
      Commit(pos);
    }

    method ClearNote(srcdat: SourceData, ghost pos: nat)
      requires Holds(srcdat, pos)
      modifies this`entries, srcdat, srcdat.stats
      ensures Abs() == Some(Update(old(Value()), pos, old(entries)[pos].(sdes := old(entries)[pos].sdes.(note := []))))
    {
      srcdat.ClearNote();
      forall k | 0 <= k < |entries| && k != pos ensures At(sourcelist.order, k).State() == entries[k] {
        assert old(At(sourcelist.order, k).State()) == entries[k];
      }
      Commit(pos);
    }

    method SetOwnSSRC(srcdat: SourceData, ghost pos: nat)
      requires Holds(srcdat, pos)
      modifies this`entries, srcdat, srcdat.stats
      ensures Abs() == Some(Update(old(Value()), pos, SetOwn(old(entries)[pos])))
    {
      srcdat.SetOwnSSRC();
      forall k | 0 <= k < |entries| && k != pos ensures At(sourcelist.order, k).State() == entries[k] {
        assert old(At(sourcelist.order, k).State()) == entries[k];
      }
      Commit(pos);
    }

    // ---- Updates that move a counter ----

    method CountSDESItem(srcdat: SourceData, ghost pos: nat, id: int, data: seq<byte>, now: real)
      returns (cnamecollis: bool)
      requires Holds(srcdat, pos)
      modifies this`entries, this`activecount, srcdat, srcdat.stats
      ensures Abs() == Some(UpdateCounted(old(Value()), pos, ProcessSdes(old(entries)[pos], id, data, now).src))
      ensures cnamecollis == ProcessSdes(old(entries)[pos], id, data, now).cnamecollision
    {
      hide ProcessSdes;
      StateAt(srcdat, pos);
      SourceCounters.SdesLike(entries[pos], id, data, now);
      var prevactive := srcdat.IsActive();
      cnamecollis := ReceiveSDESItem(srcdat, pos, id, data, now);
      var active := srcdat.IsActive();
      if !prevactive && active {
        activecount := activecount + 1;
      }
    }

    method CountBYE(srcdat: SourceData, ghost pos: nat, now: real)
      requires Holds(srcdat, pos)
      modifies this`entries, this`activecount, srcdat, srcdat.stats
      ensures Abs() == Some(UpdateCounted(old(Value()), pos, ProcessBye(old(entries)[pos], now)))
    {
      StateAt(srcdat, pos);
      var prevactive := srcdat.IsActive();
      ReceiveBYE(srcdat, pos, now);
      var active := srcdat.IsActive();
      if prevactive && !active {
        activecount := activecount - 1;
      }
    }

    // The counting after ProcessRTPPacket, from the flags read before it.
    method CountChange(srcdat: SourceData, ghost pos: nat, ghost before: Table, prevsender: bool, prevactive: bool)
      requires Holds(srcdat, pos) && pos < |before.entries| && Value() == Update(before, pos, entries[pos])
      requires prevsender == before.entries[pos].issender && prevactive == before.entries[pos].Active()
      requires (prevsender ==> entries[pos].issender) && (prevactive ==> entries[pos].Active())
      modifies this`activecount, this`sendercount
      ensures Abs() == Some(UpdateCounted(before, pos, entries[pos]))
    {
      StateAt(srcdat, pos);
      var sender := srcdat.issender;
      var active := srcdat.IsActive();
      if !prevsender && sender {
        sendercount := sendercount + 1;
      }
      if !prevactive && active {
        activecount := activecount + 1;
      }
    }

    method CountRTP(srcdat: SourceData, ghost pos: nat, p: Packet, now: real, handled: bool) returns (stored: bool)
      requires Holds(srcdat, pos) && Reception.Increasing(entries[pos].packetlist)
      modifies this`entries, this`activecount, this`sendercount, srcdat, srcdat.stats
      ensures Abs() == Some(UpdateCounted(old(Value()), pos, ProcessRtp(old(entries)[pos], p, now, handled).src))
      ensures stored == ProcessRtp(old(entries)[pos], p, now, handled).stored
    {
      StateAt(srcdat, pos);
      SourceCounters.ProcessRtpFlags(entries[pos], p, now, handled);
      var prevsender := srcdat.issender;
      var prevactive := srcdat.IsActive();
      stored := ReceiveRTP(srcdat, pos, p, now, handled);
      CountChange(srcdat, pos, old(Value()), prevsender, prevactive);
    }

    // ---- Finding and creating entries ----

    // sourcelist.GotoElement and GetCurrentElement.
    method LookUp(ssrc: uint32) returns (srcdat: SourceData?)
      requires Abs().Some?
      modifies this`sourcelist
      ensures Abs() == Some(old(Value())) && sourcelist.order == old(sourcelist.order)
      ensures srcdat == null <==> !GotEntry(Value(), ssrc)
      ensures srcdat != null ==> srcdat == At(sourcelist.order, Find(entries, ssrc))
      ensures sourcelist.cur == TableView.CursorAt(Find(entries, ssrc), |entries|)
    {
      FindAgrees(sourcelist.order, entries, repr, ssrc);
      sourcelist := TableView.Goto(sourcelist, ssrc);
      if sourcelist.cur.At? {
        srcdat := At(sourcelist.order, sourcelist.cur.pos);
      } else {
        srcdat := null;
      }
    }

    // A new entry at the end of the list.
    method AddSource(ssrc: uint32, srcdat: SourceData)
      requires Abs().Some? && !GotEntry(Value(), ssrc)
      requires srcdat !in repr && srcdat.stats !in repr && this !in {srcdat, srcdat.stats}
      requires srcdat.State() == NewSource(ssrc, probationtype)
      modifies this`sourcelist, this`entries, this`repr, this`totalcount
      ensures Abs() == Some(Obtain(old(Value()), ssrc)) && repr == old(repr) + {srcdat, srcdat.stats}
      ensures sourcelist == TableView.Add(old(sourcelist), ssrc, srcdat)
    {
      hide Listed;
      FindAgrees(sourcelist.order, entries, repr, ssrc);
      MirrorsAppend(sourcelist.order, entries, repr, srcdat);
      sourcelist := TableView.Add(sourcelist, ssrc, srcdat);
      entries := entries + [srcdat.State()];
      repr := repr + {srcdat, srcdat.stats};
      totalcount := totalcount + 1;
    }

    method CreateSource(ssrc: uint32) returns (srcdat: SourceData)
      requires Abs().Some? && !GotEntry(Value(), ssrc)
      modifies this`sourcelist, this`entries, this`repr, this`totalcount
      ensures Abs() == Some(Obtain(old(Value()), ssrc)) && fresh(repr - old(repr))
      ensures Holds(srcdat, |old(entries)|)
    {
      hide Listed;
      srcdat := new SourceData(ssrc, probationtype);
      AddSource(ssrc, srcdat);
    }

    method ObtainSourceDataInstance(ssrc: uint32) returns (srcdat: SourceData, created: bool)
      requires Abs().Some?
      modifies this`sourcelist, this`entries, this`repr, this`totalcount
      ensures Abs() == Some(Obtain(old(Value()), ssrc)) && created == !GotEntry(old(Value()), ssrc)
      ensures Holds(srcdat, Find(entries, ssrc)) && fresh(repr - old(repr))
    {
      hide Obtain, Listed;
      ObtainFinds(Value(), ssrc);
      var found := LookUp(ssrc);
      if found == null {
        srcdat := CreateSource(ssrc);
        created := true;
      } else {
        srcdat := found;
        created := false;
      }
    }

    method CheckCollision(srcdat: SourceData, ghost pos: nat, senderaddress: Option<Address>, isrtp: bool)
      returns (collision: bool)
      requires Holds(srcdat, pos)
      modifies this`entries, srcdat, srcdat.stats
      ensures var c := SourceState.CheckCollision(old(entries)[pos], senderaddress, isrtp);
              collision == c.collision && Abs() == Some(Update(old(Value()), pos, c.src))
    {
      var isset, addr, otherisset, otheraddr;
      assert srcdat.State() == entries[pos];
      if isrtp {
        isset, addr := srcdat.isrtpaddrset, srcdat.rtpaddr;
        otherisset, otheraddr := srcdat.isrtcpaddrset, srcdat.rtcpaddr;
      } else {
        isset, addr := srcdat.isrtcpaddrset, srcdat.rtcpaddr;
        otherisset, otheraddr := srcdat.isrtpaddrset, srcdat.rtpaddr;
      }
      assert Update(Value(), pos, entries[pos]) == Value();
      if !isset {
        if otherisset {
          if otheraddr == None {
            if senderaddress != None {
              return true;
            }
          } else if !SameHost(otheraddr.value, senderaddress) {
            return true;
          }
        }
        SetDataAddress(srcdat, pos, senderaddress, isrtp);
      } else if addr == None {
        if senderaddress != None {
          return true;
        }
      } else if !SameAddress(addr.value, senderaddress) {
        return true;
      }
      return false;
    }

    // GetRTCPSourceData, and the same steps at the head of ProcessRTPPacket.
    // The result is null when the sender's address collides.
    method GetSourceData(ssrc: uint32, senderaddress: Option<Address>, isrtp: bool)
      returns (srcdat: SourceData?, created: bool, owncollision: bool, ghost pos: nat)
      requires Abs().Some?
      modifies this`sourcelist, this`entries, this`repr, this`totalcount, repr
      ensures fresh(repr - old(repr))
      ensures var a := Admit(old(Value()), ssrc, senderaddress, isrtp);
              Abs() == Some(a.table) && pos == a.pos && (srcdat == null <==> a.collision)
      ensures srcdat != null ==> Holds(srcdat, pos) && srcdat.ssrc == ssrc
      ensures owncollision == OwnCollision(old(Value()), ssrc, senderaddress, isrtp)
    {
      hide SourceState.CheckCollision;
      ObtainFinds(Value(), ssrc);
      owncollision := false;
      var s;
      s, created := ObtainSourceDataInstance(ssrc);
      pos := Find(entries, ssrc);
      srcdat := s;
      if created {
        SetDataAddress(s, pos, senderaddress, isrtp);
      } else {
        var collision := CheckCollision(s, pos, senderaddress, isrtp);
        if collision {
          owncollision := s.ownssrc;
          srcdat := null;
        }
      }
    }

    // ---- The own entry ----

    method MakeOwn(srcdat: SourceData, ghost pos: nat)
      requires Holds(srcdat, pos)
      modifies this`entries, srcdat, srcdat.stats
      ensures Abs() == Some(Update(old(Value()), pos, OwnEntry(old(entries)[pos])))
    {
      ghost var t, e := Value(), entries[pos];
      UpdateTwice(t, pos, SetOwn(e), SetAddress(SetOwn(e), None, true));
      UpdateTwice(t, pos, SetAddress(SetOwn(e), None, true), OwnEntry(e));
      SetOwnSSRC(srcdat, pos);
      SetDataAddress(srcdat, pos, None, true);
      SetDataAddress(srcdat, pos, None, false);
    }

    method CreateOwnSSRC(ssrc: uint32) returns (ok: bool)
      requires Abs().Some?
      modifies this`sourcelist, this`entries, this`repr, this`totalcount, this`activecount
      modifies this`owndata, this`ownpos, repr
      ensures fresh(repr - old(repr)) && Abs() == Some(CreateOwn(old(Value()), ssrc))
      ensures ok == (old(Value()).own.None? && !GotEntry(old(Value()), ssrc))
    {
      if owndata != null {
        return false;
      }
      var found := HasEntry(ssrc);
      if found {
        return false;
      }
      CreateNewOwn(ssrc);
      return true;
    }

    method CreateNewOwn(ssrc: uint32)
      requires Abs().Some? && owndata == null && !GotEntry(Value(), ssrc)
      modifies this`sourcelist, this`entries, this`repr, this`totalcount, this`activecount
      modifies this`owndata, this`ownpos, repr
      ensures fresh(repr - old(repr)) && Abs() == Some(CreateOwn(old(Value()), ssrc))
    {
      hide OwnEntry, CreateOwn, Obtain, GotEntry;
      CreateOwnIs(Value(), ssrc);
      var srcdat, created := ObtainSourceDataInstance(ssrc);
      ghost var pos := Find(entries, ssrc);
      MakeOwn(srcdat, pos);
      BecomeOwn(srcdat, pos);
    }

    method BecomeOwn(srcdat: SourceData, ghost pos: nat)
      requires Holds(srcdat, pos)
      modifies this`owndata, this`ownpos, this`activecount
      ensures Abs() == Some(old(Value()).(own := Some(srcdat.ssrc), active := old(activecount) + 1))
    {
      owndata := srcdat;
      ownpos := pos;
      activecount := activecount + 1;
    }

    // sourcelist.HasElement.
    method HasEntry(ssrc: uint32) returns (found: bool)
      requires Abs().Some?
      ensures found == GotEntry(Value(), ssrc)
    {
      FindAgrees(sourcelist.order, entries, repr, ssrc);
      found := TableView.HasKey(sourcelist.order, ssrc);
    }

    method DeleteOwnSSRC() returns (ok: bool)
      requires Abs().Some?
      modifies this`sourcelist, this`entries, this`totalcount, this`sendercount, this`activecount
      modifies this`owndata, this`ownpos
      ensures Abs() == Some(DeleteOwn(old(Value())))
      ensures ok == old(Value()).own.Some?
    {
      hide Listed, Mirrors;
      if owndata == null {
        return false;
      }
      var own := owndata;
      OwnIsFound();
      RemoveOwn();
      totalcount := totalcount - 1;
      if own.issender {
        sendercount := sendercount - 1;
      }
      if own.IsActive() {
        activecount := activecount - 1;
      }
      return true;
    }

    method RemoveOwn()
      requires Abs().Some? && owndata != null
      modifies this`sourcelist, this`entries, this`owndata, this`ownpos
      requires ownpos < |entries|
      ensures Abs() == Some(old(Value()).(entries := RemoveAt(old(entries), old(ownpos)), own := None))
    {
      OwnIsFound();
      var srcdat := LookUp(owndata.ssrc);
      ghost var k := ownpos;
      owndata := null;
      DeleteCurrent(k);
    }

    lemma OwnIsFound()
      requires Abs().Some? && owndata != null
      ensures Find(entries, owndata.ssrc) == ownpos < |entries| && entries[ownpos] == owndata.State()
    {
      assert At(sourcelist.order, ownpos).State() == entries[ownpos];
      SourceCounters.FindPresent(entries, ownpos);
      var i := Find(entries, owndata.ssrc);
      assert At(sourcelist.order, i).State() == entries[i];
    }

    method SentRTPPacket(currenttime: real)
      requires Abs().Some?
      modifies this`entries, this`sendercount, repr
      ensures Abs() == Some(SentRtpPacket(old(Value()), currenttime))
    {
      if owndata == null {
        return;
      }
      OwnIsFound();
      var prevsender := owndata.issender;
      SendRTP(owndata, ownpos, currenttime);
      if !prevsender && owndata.issender {
        sendercount := sendercount + 1;
      }
    }

    // The next queued packet of the source under the cursor.
    method GetNextPacket() returns (p: Option<Packet>)
      requires Abs().Some? && !sourcelist.cur.Dangling? && TableView.Wf(sourcelist)
      modifies this`entries, repr
      ensures if sourcelist.cur.At? then
                var r := NextPacket(old(entries)[sourcelist.cur.pos]);
                p == r.packet && Abs() == Some(Update(old(Value()), sourcelist.cur.pos, r.src))
              else p.None? && Abs() == Some(old(Value()))
    {
      if !sourcelist.cur.At? {
        return None;
      }
      p := TakeNextPacket(At(sourcelist.order, sourcelist.cur.pos), sourcelist.cur.pos);
    }

    method Clear()
      requires Abs().Some?
      modifies this`sourcelist, this`entries, this`totalcount, this`sendercount, this`activecount, this`owndata
      ensures Abs() == Some(Empty(probationtype)) && sourcelist.cur == TableView.End
    {
      sourcelist := sourcelist.(cur := TableView.CursorAt(0, |sourcelist.order|));
      while sourcelist.cur.At?
        invariant !sourcelist.cur.Dangling? && sourcelist.order == old(sourcelist.order)
        invariant sourcelist.cur.At? ==> sourcelist.cur.pos < |sourcelist.order|
        decreases if sourcelist.cur.At? then |sourcelist.order| - sourcelist.cur.pos else 0
      {
        sourcelist := TableView.Next(sourcelist);
      }
      sourcelist := TableView.Cleared(sourcelist);
      entries := [];
      owndata := null;
      totalcount, sendercount, activecount := 0, 0, 0;
    }

    // ---- Incoming packets ----

    method UpdateReceiveTime(ssrc: uint32, receivetime: real, senderaddress: Option<Address>)
      returns (owncollision: bool)
      requires Abs().Some?
      modifies this`sourcelist, this`entries, this`repr, this`totalcount, repr
      ensures fresh(repr - old(repr))
      ensures Abs() == Some(RefreshSource(old(Value()), ssrc, receivetime, senderaddress))
      ensures owncollision == Collides(old(Value()), Refresh(ssrc, receivetime, senderaddress))
    {
      hide Admit;
      var srcdat, created, collides, pos := GetSourceData(ssrc, senderaddress, false);
      owncollision := collides;
      if srcdat == null {
        return;
      }
      UpdateMessageTime(srcdat, pos, receivetime);
    }

    method ProcessSDESNormalItem(ssrc: uint32, id: int, itemdata: seq<byte>, receivetime: real,
                                 senderaddress: Option<Address>)
      returns (legal: bool, cnamecollis: bool, owncollision: bool)
      requires Abs().Some?
      modifies this`sourcelist, this`entries, this`repr, this`totalcount, this`activecount, repr
      ensures fresh(repr - old(repr)) && legal == (SDES_CNAME <= id <= SDES_NOTE)
      ensures Abs() == Some(ProcessSdesItem(old(Value()), ssrc, id, itemdata, receivetime, senderaddress))
      ensures cnamecollis == CnameCollision(old(Value()), ssrc, id, itemdata, receivetime, senderaddress)
      ensures owncollision == Collides(old(Value()), Sdes(ssrc, id, itemdata, receivetime, senderaddress))
    {
      hide Admit, ProcessSdes;
      legal, cnamecollis := true, false;
      if !(SDES_CNAME <= id <= SDES_NOTE) {
        return false, false, false;
      }
      var srcdat, created, collides, pos := GetSourceData(ssrc, senderaddress, false);
      owncollision := collides;
      if srcdat == null {
        return;
      }
      cnamecollis := CountSDESItem(srcdat, pos, id, itemdata, receivetime);
    }

    method ProcessBYE(ssrc: uint32, receivetime: real, senderaddress: Option<Address>) returns (owncollision: bool)
      requires Abs().Some?
      modifies this`sourcelist, this`entries, this`repr, this`totalcount, this`activecount, repr
      ensures fresh(repr - old(repr))
      ensures Abs() == Some(ProcessByeFor(old(Value()), ssrc, receivetime, senderaddress))
      ensures owncollision == Collides(old(Value()), Bye(ssrc, receivetime, senderaddress))
    {
      hide Admit, ProcessBye, UpdateCounted;
      var srcdat, created, collides, pos := GetSourceData(ssrc, senderaddress, false);
      owncollision := collides;
      if srcdat == null {
        return;
      }
      OwnBySsrc(pos);
      if srcdat == owndata {
        return;
      }
      CountBYE(srcdat, pos, receivetime);
    }

    // One contributing source of an accepted packet: a new entry is counted,
    // an existing one is not.
    method MarkNewCSRC(srcdat: SourceData, ghost pos: nat)
      requires Holds(srcdat, pos)
      modifies this`entries, this`activecount, srcdat, srcdat.stats
      ensures Abs() == Some(MarkNewCsrc(old(Value()), pos))
    {
      SetCSRC(srcdat, pos);
      var active := srcdat.IsActive();
      if active {
        activecount := activecount + 1;
      }
    }

    method MarkKnownCSRC(srcdat: SourceData, ghost pos: nat, senderaddress: Option<Address>)
      returns (owncollision: bool)
      requires Holds(srcdat, pos)
      modifies this`entries, srcdat, srcdat.stats
      ensures Abs() == Some(MarkKnownCsrc(old(Value()), pos, senderaddress))
      ensures owncollision == (SourceState.CheckCollision(old(entries)[pos], senderaddress, true).collision &&
                               old(entries)[pos].ownssrc)
    {
      ghost var c := SourceState.CheckCollision(entries[pos], senderaddress, true);
      UpdateTwice(Value(), pos, c.src, SetCsrc(c.src));
      var isown := srcdat.ownssrc;
      assert isown == entries[pos].ownssrc;
      var collision := CheckCollision(srcdat, pos, senderaddress, true);
      owncollision := collision && isown;
      if !collision {
        SetCSRC(srcdat, pos);
      }
    }

    method ProcessCSRC(csrc: uint32, senderaddress: Option<Address>) returns (owncollision: bool)
      requires Abs().Some?
      modifies this`sourcelist, this`entries, this`repr, this`totalcount, this`activecount, repr
      ensures fresh(repr - old(repr))
      ensures Abs() == Some(ProcessCsrc(old(Value()), csrc, senderaddress))
      ensures owncollision == OwnCollision(old(Value()), csrc, senderaddress, true)
    {
      hide SetCsrc;
      ObtainFinds(Value(), csrc);
      var csrcdat, createdcsrc := ObtainSourceDataInstance(csrc);
      ghost var pos := Find(entries, csrc);
      if createdcsrc {
        owncollision := false;
        MarkNewCSRC(csrcdat, pos);
      } else {
        owncollision := MarkKnownCSRC(csrcdat, pos, senderaddress);
      }
    }

    method ProcessCSRCs(csrcs: seq<uint32>, senderaddress: Option<Address>) returns (owncollision: bool)
      requires Abs().Some?
      modifies this`sourcelist, this`entries, this`repr, this`totalcount, this`activecount, repr
      ensures fresh(repr - old(repr))
      ensures Abs() == Some(ProcessCsrcs(old(Value()), csrcs, senderaddress))
      ensures owncollision == CsrcsCollision(old(Value()), csrcs, senderaddress)
    {
      hide ProcessCsrc, OwnCollision;
      ghost var t := Value();
      var i := 0;
      owncollision := false;
      while i < |csrcs|
        invariant i <= |csrcs| && Abs().Some? && fresh(repr - old(repr))
        invariant ProcessCsrcs(Value(), csrcs[i..], senderaddress) == ProcessCsrcs(t, csrcs, senderaddress)
        invariant (owncollision || CsrcsCollision(Value(), csrcs[i..], senderaddress)) ==
                  CsrcsCollision(t, csrcs, senderaddress)
      {
        var collides := ProcessCSRC(csrcs[i], senderaddress);
        assert csrcs[i..][1..] == csrcs[i + 1..];
        owncollision := owncollision || collides;
        i := i + 1;
      }
    }

    method ProcessAdmittedRTP(srcdat: SourceData, ghost pos: nat, rtppack: Packet, receivetime: real,
                              senderaddress: Option<Address>, handled: bool)
      returns (stored: bool, owncollision: bool)
      requires Holds(srcdat, pos) && Reception.Increasing(entries[pos].packetlist)
      modifies this`sourcelist, this`entries, this`repr, this`totalcount, this`activecount, this`sendercount, repr
      ensures fresh(repr - old(repr))
      ensures var r := ProcessRtp(old(entries)[pos], rtppack, receivetime, handled);
              var t := UpdateCounted(old(Value()), pos, r.src);
              && Abs() == Some(if r.src.validated then ProcessCsrcs(t, rtppack.csrcs, senderaddress) else t)
              && stored == r.stored
              && owncollision == (r.src.validated && CsrcsCollision(t, rtppack.csrcs, senderaddress))
    {
      hide ProcessRtp, CsrcsCollision, ProcessCsrcs;
      owncollision := false;
      stored := CountRTP(srcdat, pos, rtppack, receivetime, handled);
      var validated := srcdat.validated;
      if validated {
        owncollision := ProcessCSRCs(rtppack.csrcs, senderaddress);
      }
    }

    method ProcessRTPPacket(rtppack: Packet, receivetime: real, senderaddress: Option<Address>, handled: bool)
      returns (stored: bool, owncollision: bool)
      requires Abs().Some? && SourceCounters.Inv(Value())
      modifies this`sourcelist, this`entries, this`repr, this`totalcount, this`activecount, this`sendercount, repr
      ensures fresh(repr - old(repr))
      ensures Abs() == Some(ProcessRtpPacket(old(Value()), rtppack, receivetime, senderaddress, handled))
      ensures stored == RtpStored(old(Value()), rtppack, receivetime, senderaddress, handled)
      ensures owncollision == Collides(old(Value()), Rtp(rtppack, receivetime, senderaddress, handled))
    {
      hide Admit, ProcessRtp, SourceCounters.Inv, CsrcsCollision, ProcessCsrcs;
      stored := false;
      SourceCounters.AdmitQueue(Value(), rtppack.ssrc, senderaddress, true);
      var srcdat, created, collides, pos := GetSourceData(rtppack.ssrc, senderaddress, true);
      owncollision := collides;
      if srcdat == null {
        return;
      }
      stored, owncollision := ProcessAdmittedRTP(srcdat, pos, rtppack, receivetime, senderaddress, handled);
    }

    // ---- Timeouts ----

    // sourcelist.DeleteCurrentElement.
    method DeleteCurrent(ghost k: nat)
      requires Abs().Some? && sourcelist.cur == TableView.At(k) && k < |entries|
      requires At(sourcelist.order, k) != owndata
      modifies this`sourcelist, this`entries, this`ownpos
      ensures Abs() == Some(old(Value()).(entries := RemoveAt(old(entries), k)))
      ensures sourcelist.order == RemoveAt(old(sourcelist.order), k)
      ensures sourcelist.cur == TableView.CursorAt(k, |entries|)
    {
      hide Listed, Past;
      MirrorsRemove(sourcelist.order, entries, repr, k);
      if owndata != null && ownpos != k {
        RemovedAt(sourcelist.order, k, if k < ownpos then ownpos - 1 else ownpos);
      }
      sourcelist := TableView.DeleteCurrent(sourcelist);
      entries := RemoveAt(entries, k);
      if k < ownpos {
        ownpos := ownpos - 1;
      }
    }

    // srcdat != owndata, by SSRC.
    lemma OwnBySsrc(k: nat)
      requires Abs().Some? && k < |entries|
      ensures k < |sourcelist.order|
      ensures At(sourcelist.order, k) == owndata <==> Value().own == Some(entries[k].ssrc)
    {
      assert At(sourcelist.order, k).State() == entries[k];
    }

    ghost predicate AtEntry(k: nat)
      reads this, repr
    {
      Abs().Some? && k < |entries| && sourcelist.cur == TableView.At(k)
    }

    // The state of a sweep: the entries in done have been kept, those in todo are
    // still to come.
    ghost predicate Swept(done: seq<Source>, todo: seq<Source>, own: Option<uint32>, counts: Counts)
      reads this, repr
    {
      && Abs().Some? && Value().own == own
      && entries == done + todo
      && sourcelist.cur == TableView.CursorAt(|done|, |entries|)
      && counts == CountsOf(done)
    }

    // What handling the entry under the cursor comes to: it is dropped, or
    // rewritten and passed over.
    ghost predicate Handled(before: Table, k: nat, r: Option<Source>, kept: bool, issender: bool, isactive: bool)
      requires k < |before.entries|
      reads this, repr
    {
      && Abs().Some? && Value().own == before.own
      && kept == r.Some?
      && entries == (if r.Some? then before.entries[k := r.value] else RemoveAt(before.entries, k))
      && sourcelist.cur == TableView.CursorAt(if r.Some? then k + 1 else k, |entries|)
      && (r.Some? ==> issender == r.value.issender && isactive == r.value.Active())
    }

    // The end of a sweep: the counters are replaced by the fresh counts.
    method SetCounters(newcounts: Counts)
      requires Abs().Some? && newcounts == CountsOf(entries)
      modifies this`totalcount, this`sendercount, this`activecount
      ensures Abs() == Some(Recounted(old(Value()), entries))
    {
      totalcount := newcounts.total;
      sendercount := newcounts.senders;
      activecount := newcounts.active;
    }

    method PassCurrent(ghost k: nat)
      requires AtEntry(k)
      modifies this`sourcelist
      ensures Abs() == Some(old(Value())) && sourcelist.cur == TableView.CursorAt(k + 1, |entries|)
    {
      sourcelist := TableView.Next(sourcelist);
    }

    // Timed out: uncount the entry and delete it.
    method DropCurrent(ghost k: nat, issender: bool, isactive: bool)
      requires AtEntry(k) && Value().own != Some(entries[k].ssrc)
      modifies this`sourcelist, this`entries, this`ownpos, this`totalcount, this`sendercount, this`activecount
      ensures Abs().Some? && Value().own == old(Value()).own && entries == RemoveAt(old(entries), k)
      ensures sourcelist.cur == TableView.CursorAt(k, |entries|)
    {
      hide Listed, Mirrors;
      totalcount := totalcount - 1;
      if issender {
        sendercount := sendercount - 1;
      }
      if isactive {
        activecount := activecount - 1;
      }
      OwnBySsrc(k);
      DeleteCurrent(k);
    }

    method ExpireSenderFlag(srcdat: SourceData, ghost k: nat, checktime: real) returns (issender: bool)
      requires Holds(srcdat, k)
      modifies this`entries, this`sendercount, srcdat, srcdat.stats
      ensures var e := ExpireSender(old(entries)[k], checktime);
              issender == e.issender && Abs() == Some(Update(old(Value()).(senders := sendercount), k, e))
    {
      assert srcdat.State() == entries[k] && entries[k := entries[k]] == entries;
      issender := srcdat.issender;
      if issender {
        if srcdat.LastRTPPacketTime() < checktime {
          ClearSenderFlag(srcdat, k);
          sendercount := sendercount - 1;
          issender := false;
        }
      }
    }

    method ExpireNoteItem(srcdat: SourceData, ghost k: nat, checktime: real)
      requires Holds(srcdat, k)
      modifies this`entries, srcdat, srcdat.stats
      ensures Abs() == Some(Update(old(Value()), k, ExpireNote(old(entries)[k], checktime)))
    {
      assert srcdat.State() == entries[k] && entries[k := entries[k]] == entries;
      if srcdat.HasNote() && checktime > srcdat.LastSDESNoteTime() {
        ClearNote(srcdat, k);
      }
    }

    method SenderTimeoutCurrent(checktime: real, ghost k: nat) returns (kept: bool, issender: bool, isactive: bool)
      requires AtEntry(k)
      modifies this`sourcelist, this`entries, this`ownpos, this`totalcount, this`sendercount, this`activecount, repr
      ensures repr == old(repr)
      ensures Handled(old(Value()), k, SenderSweep(checktime).Effect(old(Value()).own)(old(entries)[k]), kept,
              issender, isactive)
    {
      var srcdat := At(sourcelist.order, sourcelist.cur.pos);
      OwnBySsrc(k);
      issender := srcdat.issender;
      isactive := srcdat.IsActive();
      kept := true;
      issender := ExpireSenderFlag(srcdat, k, checktime);
      PassCurrent(k);
    }

    method BYETimeoutCurrent(checktime: real, ghost k: nat) returns (kept: bool, issender: bool, isactive: bool)
      requires AtEntry(k)
      modifies this`sourcelist, this`entries, this`ownpos, this`totalcount, this`sendercount, this`activecount, repr
      ensures repr == old(repr)
      ensures Handled(old(Value()), k, ByeSweep(checktime).Effect(old(Value()).own)(old(entries)[k]), kept, issender,
              isactive)
    {
      var srcdat := At(sourcelist.order, sourcelist.cur.pos);
      OwnBySsrc(k);
      issender := srcdat.issender;
      isactive := srcdat.IsActive();
      kept := !(srcdat.receivedbye && srcdat != owndata && checktime > srcdat.byetime);
      if kept {
        PassCurrent(k);
      } else {
        DropCurrent(k, issender, isactive);
      }
    }

    method TimeoutCurrent(checktime: real, ghost k: nat) returns (kept: bool, issender: bool, isactive: bool)
      requires AtEntry(k)
      modifies this`sourcelist, this`entries, this`ownpos, this`totalcount, this`sendercount, this`activecount, repr
      ensures repr == old(repr)
      ensures Handled(old(Value()), k, MemberSweep(checktime).Effect(old(Value()).own)(old(entries)[k]), kept,
              issender, isactive)
    {
      var srcdat := At(sourcelist.order, sourcelist.cur.pos);
      OwnBySsrc(k);
      issender := srcdat.issender;
      isactive := srcdat.IsActive();
      kept := !(srcdat != owndata && srcdat.LastMessageTime() < checktime);
      if kept {
        PassCurrent(k);
      } else {
        DropCurrent(k, issender, isactive);
      }
    }

    method NoteTimeoutCurrent(checktime: real, ghost k: nat) returns (kept: bool, issender: bool, isactive: bool)
      requires AtEntry(k)
      modifies this`sourcelist, this`entries, this`ownpos, this`totalcount, this`sendercount, this`activecount, repr
      ensures repr == old(repr)
      ensures Handled(old(Value()), k, NoteSweep(checktime).Effect(old(Value()).own)(old(entries)[k]), kept, issender,
              isactive)
    {
      var srcdat := At(sourcelist.order, sourcelist.cur.pos);
      OwnBySsrc(k);
      issender := srcdat.issender;
      isactive := srcdat.IsActive();
      kept := true;
      ExpireNoteItem(srcdat, k, checktime);
      PassCurrent(k);
    }

    method MultipleTimeoutsCurrent(senderchecktime: real, byechecktime: real, generalchecktime: real,
                                   notechecktime: real,
                                   ghost k: nat)
      returns (kept: bool, issender: bool, isactive: bool)
      requires AtEntry(k)
      modifies this`sourcelist, this`entries, this`ownpos, this`totalcount, this`sendercount, this`activecount, repr
      ensures repr == old(repr)
      ensures Handled(old(Value()), k,
                      MultipleSweep(senderchecktime, byechecktime, generalchecktime, notechecktime)
                        .Effect(old(Value()).own)(old(entries)[k]),
                      kept, issender, isactive)
    {
      hide ExpireNote;
      SourceCounters.MultipleAfterNote(entries[k], Value().own, senderchecktime, byechecktime, generalchecktime,
          notechecktime);
      ExpireNoteItem(At(sourcelist.order, sourcelist.cur.pos), k, notechecktime);
      kept, issender, isactive := MultipleAfterNoteCurrent(senderchecktime, byechecktime, generalchecktime, k);
    }

    method MultipleAfterNoteCurrent(senderchecktime: real, byechecktime: real, generalchecktime: real, ghost k: nat)
      returns (kept: bool, issender: bool, isactive: bool)
      requires AtEntry(k)
      modifies this`sourcelist, this`entries, this`ownpos, this`totalcount, this`sendercount, this`activecount, repr
      ensures repr == old(repr)
      ensures Handled(old(Value()), k,
                      SourceCounters.AfterNote(old(entries)[k], old(Value()).own, senderchecktime, byechecktime,
                          generalchecktime),
                      kept, issender, isactive)
    {
      var srcdat := At(sourcelist.order, sourcelist.cur.pos);
      OwnBySsrc(k);
      issender := srcdat.issender;
      isactive := srcdat.IsActive();
      var deleted := false;
      if srcdat.receivedbye {
        if srcdat != owndata && byechecktime > srcdat.byetime {
          deleted := true;
        }
      }
      if !deleted {
        if srcdat != owndata && srcdat.LastMessageTime() < generalchecktime {
          deleted := true;
        }
      }
      kept := !deleted;
      if kept {
        issender := ExpireSenderFlag(srcdat, k, senderchecktime);
        PassCurrent(k);
      } else {
        DropCurrent(k, issender, isactive);
      }
    }

    method SweepCurrent(sw: Sweep, ghost k: nat) returns (kept: bool, issender: bool, isactive: bool)
      requires AtEntry(k)
      modifies this`sourcelist, this`entries, this`ownpos, this`totalcount, this`sendercount, this`activecount, repr
      ensures repr == old(repr)
      ensures Handled(old(Value()), k, sw.Effect(old(Value()).own)(old(entries)[k]), kept, issender, isactive)
    {
      match sw {
        case SenderSweep(check) => kept, issender, isactive := SenderTimeoutCurrent(check, k);
        case ByeSweep(check) => kept, issender, isactive := BYETimeoutCurrent(check, k);
        case MemberSweep(check) => kept, issender, isactive := TimeoutCurrent(check, k);
        case NoteSweep(check) => kept, issender, isactive := NoteTimeoutCurrent(check, k);
        case MultipleSweep(s, b, m, n) => kept, issender, isactive := MultipleTimeoutsCurrent(s, b, m, n, k);
      }
    }

    method SweepNext(sw: Sweep, counts: Counts, ghost done: seq<Source>, ghost todo: seq<Source>)
      returns (kept: bool, newcounts: Counts)
      requires todo != [] && Swept(done, todo, Value().own, counts)
      modifies this`sourcelist, this`entries, this`ownpos, this`totalcount, this`sendercount, this`activecount, repr
      ensures repr == old(repr) && Value().own == old(Value()).own
      ensures var r := sw.Effect(Value().own)(todo[0]);
              Swept(if r.Some? then done + [r.value] else done, todo[1..], Value().own, newcounts)
    {
      ghost var r := sw.Effect(Value().own)(todo[0]);
      assert entries[|done|] == todo[0];
      assert RemoveAt(entries, |done|) == done + todo[1..];
      assert r.Some? ==> entries[|done| := r.value] == done + [r.value] + todo[1..];
      var issender, isactive;
      kept, issender, isactive := SweepCurrent(sw, |done|);
      newcounts := if kept then SourceCounters.CountOne(counts, issender, isactive) else counts;
      if kept {
        SourceCounters.CountsAppend(done, r.value);
      }
    }

    // One turn of the loop; the entries the sweep ends with stay the same.
    method SweepStep(sw: Sweep, counts: Counts, ghost done: seq<Source>, ghost todo: seq<Source>)
      returns (newcounts: Counts, ghost done': seq<Source>)
      requires todo != [] && Swept(done, todo, Value().own, counts)
      modifies this`sourcelist, this`entries, this`ownpos, this`totalcount, this`sendercount, this`activecount, repr
      ensures repr == old(repr) && Value().own == old(Value()).own
      ensures Swept(done', todo[1..], Value().own, newcounts)
      ensures var f := sw.Effect(Value().own); done' + FilterMap(todo[1..], f) == done + FilterMap(todo, f)
    {
      hide Swept;
      ghost var f := sw.Effect(Value().own);
      SourceCounters.FilterMapFirst(todo, f);
      var kept;
      kept, newcounts := SweepNext(sw, counts, done, todo);
      done' := if f(todo[0]).Some? then done + [f(todo[0]).value] else done;
    }

    // The delete-while-iterating loop that all five timeouts share.
    method SweepList(sw: Sweep) returns (newcounts: Counts)
      requires Abs().Some?
      modifies this`sourcelist, this`entries, this`ownpos, this`totalcount, this`sendercount, this`activecount, repr
      ensures repr == old(repr) && Abs().Some? && Value().own == old(Value()).own
      ensures entries == FilterMap(old(entries), sw.Effect(Value().own))
      ensures newcounts == CountsOf(entries)
    {
      newcounts := Counts(0, 0, 0);
      ghost var own := Value().own;
      ghost var done, todo := [], entries;
      sourcelist := sourcelist.(cur := TableView.CursorAt(0, |sourcelist.order|));
      while sourcelist.cur.At?
        invariant repr == old(repr) && Swept(done, todo, own, newcounts)
        invariant FilterMap(old(entries), sw.Effect(own)) == done + FilterMap(todo, sw.Effect(own))
        decreases |todo|
      {
        newcounts, done := SweepStep(sw, newcounts, done, todo);
        todo := todo[1..];
      }
      SweepEnds(done, todo, own, newcounts);
    }

    lemma SweepEnds(done: seq<Source>, todo: seq<Source>, own: Option<uint32>, counts: Counts)
      requires Swept(done, todo, own, counts) && !sourcelist.cur.At?
      ensures todo == [] && entries == done
    {
      assert done + [] == done;
    }

    method RunTimeout(sw: Sweep)
      requires Abs().Some?
      modifies this`sourcelist, this`entries, this`ownpos, this`totalcount, this`sendercount, this`activecount, repr
      ensures repr == old(repr) && Abs() == Some(RunSweep(old(Value()), sw))
    {
      var newcounts := SweepList(sw);
      SetCounters(newcounts);
    }

    method SenderTimeout(curtime: real, timeoutdelay: real)
      requires Abs().Some?
      modifies this`sourcelist, this`entries, this`ownpos, this`totalcount, this`sendercount, this`activecount, repr
      ensures repr == old(repr) && Abs() == Some(RunSweep(old(Value()), SenderSweep(curtime - timeoutdelay)))
    {
      RunTimeout(SenderSweep(curtime - timeoutdelay));
    }

    method BYETimeout(curtime: real, timeoutdelay: real)
      requires Abs().Some?
      modifies this`sourcelist, this`entries, this`ownpos, this`totalcount, this`sendercount, this`activecount, repr
      ensures repr == old(repr) && Abs() == Some(RunSweep(old(Value()), ByeSweep(curtime - timeoutdelay)))
    {
      RunTimeout(ByeSweep(curtime - timeoutdelay));
    }

    method Timeout(curtime: real, timeoutdelay: real)
      requires Abs().Some?
      modifies this`sourcelist, this`entries, this`ownpos, this`totalcount, this`sendercount, this`activecount, repr
      ensures repr == old(repr) && Abs() == Some(RunSweep(old(Value()), MemberSweep(curtime - timeoutdelay)))
    {
      RunTimeout(MemberSweep(curtime - timeoutdelay));
    }

    method NoteTimeout(curtime: real, timeoutdelay: real)
      requires Abs().Some?
      modifies this`sourcelist, this`entries, this`ownpos, this`totalcount, this`sendercount, this`activecount, repr
      ensures repr == old(repr) && Abs() == Some(RunSweep(old(Value()), NoteSweep(curtime - timeoutdelay)))
    {
      RunTimeout(NoteSweep(curtime - timeoutdelay));
    }

    method MultipleTimeouts(curtime: real, sendertimeout: real, byetimeout: real, generaltimeout: real,
                            notetimeout: real)
      requires Abs().Some?
      modifies this`sourcelist, this`entries, this`ownpos, this`totalcount, this`sendercount, this`activecount, repr
      ensures repr == old(repr)
              && Abs() == Some(RunSweep(old(Value()),
                  MultipleSweep(curtime - sendertimeout, curtime - byetimeout, curtime - generaltimeout,
                      curtime - notetimeout)))
    {
      RunTimeout(MultipleSweep(curtime - sendertimeout, curtime - byetimeout, curtime - generaltimeout,
          curtime - notetimeout));
    }
  }
}
