/** The connection table of a TCPStack: VFindTableEntry, VInsertTableEntry and VDeleteTableEntry. */
module TcpTable {
  import opened Addresses
  import opened Bytes
  import opened Tcp
  import Slices

  datatype Body = Listener | Normal(sock: Sock)

  /** `sid` stands for the socket pointer: no two entries share it. */
  datatype Entry = Entry(
    localPort: uint16, remoteAddr: Addr, remotePort: uint16, state: TcpState, sid: nat, body: Body)

  predicate Matches(e: Entry, localPort: uint16, remoteAddr: Addr, remotePort: uint16) {
    e.localPort == localPort && e.remoteAddr == remoteAddr && e.remotePort == remotePort
  }

  predicate Listens(e: Entry, localPort: uint16) {
    e.localPort == localPort && e.state == Listen
  }

  /** The entry VFindTableEntry settles on: the first full match, else the first listener. */
  predicate IsFound(t: seq<Entry>, localPort: uint16, remoteAddr: Addr, remotePort: uint16, i: nat) {
    && i < |t|
    && if Matches(t[i], localPort, remoteAddr, remotePort)
       then forall k :: 0 <= k < i ==> !Matches(t[k], localPort, remoteAddr, remotePort)
       else Listens(t[i], localPort)
            && (forall k :: 0 <= k < |t| ==> !Matches(t[k], localPort, remoteAddr, remotePort))
            && (forall k :: 0 <= k < i ==> !Listens(t[k], localPort))
  }

  function FirstMatch(t: seq<Entry>, localPort: uint16, remoteAddr: Addr, remotePort: uint16): (i: nat)
    ensures i <= |t|
    ensures i < |t| ==> Matches(t[i], localPort, remoteAddr, remotePort)
    ensures forall k :: 0 <= k < i ==> !Matches(t[k], localPort, remoteAddr, remotePort)
  {
    if t == [] || Matches(t[0], localPort, remoteAddr, remotePort) then 0
    else 1 + FirstMatch(t[1..], localPort, remoteAddr, remotePort)
  }

  function FirstListener(t: seq<Entry>, localPort: uint16): (i: nat)
    ensures i <= |t|
    ensures i < |t| ==> Listens(t[i], localPort)
    ensures forall k :: 0 <= k < i ==> !Listens(t[k], localPort)
  {
    if t == [] || Listens(t[0], localPort) then 0 else 1 + FirstListener(t[1..], localPort)
  }

  /** The index VFindTableEntry returns, or the length of the table for "entry not found". */
  function Find(t: seq<Entry>, localPort: uint16, remoteAddr: Addr, remotePort: uint16): (i: nat)
    ensures i <= |t|
    ensures i < |t| ==> IsFound(t, localPort, remoteAddr, remotePort, i)
    ensures i == |t| ==> forall k :: 0 <= k < |t| ==>
              !Matches(t[k], localPort, remoteAddr, remotePort) && !Listens(t[k], localPort)
  {
    var i := FirstMatch(t, localPort, remoteAddr, remotePort);
    if i < |t| then i else FirstListener(t, localPort)
  }

  /** The table without the entries equal to `e`. */
  function Without(t: seq<Entry>, e: Entry): seq<Entry> {
    if t == [] then []
    else if t[0] == e then Without(t[1..], e)
    else [t[0]] + Without(t[1..], e)
  }

  predicate DistinctSids(t: seq<Entry>) {
    forall i, j :: 0 <= i < j < |t| ==> t[i].sid != t[j].sid
  }

  lemma {:induction false} WithoutNone(t: seq<Entry>, e: Entry)
    requires e !in t
    ensures Without(t, e) == t
  {
    if t != [] {
      WithoutNone(t[1..], e);
    }
  }

  /** Deleting entry `i` of a table with distinct sockets removes exactly that place. */
  lemma {:induction false} WithoutAt(t: seq<Entry>, i: nat)
    requires DistinctSids(t) && i < |t|
    ensures Without(t, t[i]) == RemoveAt(t, i)
  {
    if i == 0 {
      WithoutNone(t[1..], t[0]);
    } else {
      assert t[1..][i - 1] == t[i];
      WithoutAt(t[1..], i - 1);
    }
  }

  /**
   The backing array `back` before turn `i` of the loop: untouched so far, or without the one entry
   that was to go, and then the rest of the array does not hold it either.
   */
  ghost predicate Deleting(t: seq<Entry>, back: seq<Entry>, len: nat, i: nat, e: Entry) {
    && DistinctSids(t) && |back| == |t|
    && if len == |t| then back == t && forall k :: 0 <= k < i && k < |t| ==> t[k] != e
       else && len + 1 == |t| && back[..len] == Without(t, e)
            && forall k :: i <= k < |t| ==> back[k] != e
  }

  lemma DeletingStarts(t: seq<Entry>, e: Entry)
    requires DistinctSids(t)
    ensures t[..|t|] == t && Deleting(t, t, |t|, 0, e)
  {
  }

  lemma DeletingHit(t: seq<Entry>, back: seq<Entry>, len: nat, i: nat, e: Entry)
    requires Deleting(t, back, len, i, e) && i < |t| && back[i] == e
    ensures len == |t| && back == t
  {
  }

  lemma DeletingOn(t: seq<Entry>, back: seq<Entry>, len: nat, i: nat, e: Entry)
    requires Deleting(t, back, len, i, e) && i < |t| && back[i] != e
    ensures Deleting(t, back, len, i + 1, e)
  {
  }

  /** The turn that removes the entry: the last one moves down, or is the one that is gone. */
  lemma DeletingTurn(t: seq<Entry>, back: seq<Entry>, back': seq<Entry>, i: nat, e: Entry)
    requires Deleting(t, back, |t|, i, e) && i < |t| && t[i] == e && |back'| == |t|
    requires back'[..|t| - 1] == t[..i] + t[i + 1..] && back'[|t| - 1] == t[|t| - 1]
    ensures Deleting(t, back', |t| - 1, i + 1, e)
  {
    WithoutAt(t, i);
    hide Without;
    forall k | i + 1 <= k < |t| ensures back'[k] != e {
      if k < |t| - 1 {
        assert back'[k] == back'[..|t| - 1][k] == t[k + 1];
      }
    }
  }

  lemma DeletingEnds(t: seq<Entry>, back: seq<Entry>, len: nat, e: Entry)
    requires Deleting(t, back, len, |t|, e)
    ensures len <= |back| && back[..len] == Without(t, e)
  {
    if len == |t| {
      WithoutNone(t, e);
    }
  }

  class Table {
    var slots: array<Entry>
    var len: nat

    ghost predicate Valid()
      reads this
    {
      len <= slots.Length
    }

    ghost function Entries(): seq<Entry>
      requires Valid()
      reads this, slots
    {
      slots[..len]
    }

    constructor ()
      ensures Valid() && fresh(slots) && Entries() == []
    {
      slots := new Entry[0];
      len := 0;
    }

    method Insert(e: Entry)
      requires Valid()
      modifies this, slots
      ensures Valid() && (slots == old(slots) || fresh(slots))
      ensures Entries() == old(Entries()) + [e]
    {
      slots := Slices.Append(slots, len, e);
      len := len + 1;
    }

    /** VFindTableEntry: one loop for a full match, a second for a listening socket. */
    method VFind(localPort: uint16, remoteAddr: Addr, remotePort: uint16) returns (i: nat, found: bool)
      requires Valid()
      ensures found ==> IsFound(Entries(), localPort, remoteAddr, remotePort, i)
      ensures i == Find(Entries(), localPort, remoteAddr, remotePort)
      ensures found <==> i < len
    {
      ghost var t := Entries();
      i := 0;
      while i < len
        invariant i <= len
        invariant forall k :: 0 <= k < i ==> !Matches(t[k], localPort, remoteAddr, remotePort)
      {
        if Matches(slots[i], localPort, remoteAddr, remotePort) {
          return i, true;
        }
        i := i + 1;
      }
      i := 0;
      while i < len
        invariant i <= len
        invariant forall k :: 0 <= k < i ==> !Listens(t[k], localPort)
      {
        if Listens(slots[i], localPort) {
          return i, true;
        }
        i := i + 1;
      }
      return i, false;
    }

    /**
     VDeleteTableEntry.  The loop ranges over the slice as it was on entry and keeps reading the
     backing array after a removal has shifted it.
     */
    method Delete(e: Entry)
      requires Valid() && DistinctSids(Entries())
      modifies this, slots
      ensures Valid() && slots == old(slots)
      ensures Entries() == Without(old(Entries()), e)
    {
      hide Deleting, DistinctSids, Without;
      ghost var t := Entries();
      var n := len;
      DeletingStarts(t, e);
      for i := 0 to n
        invariant Valid() && slots == old(slots) && n == |t| <= slots.Length
        invariant Deleting(t, slots[..n], len, i, e)
      {
        ghost var back, len0 := slots[..n], len;
        if slots[i] == e {
          DeletingHit(t, back, len0, i, e);
          Slices.Shift(slots, len, i);
          len := len - 1;
          assert slots[..n][..len] == slots[..len];
          DeletingTurn(t, back, slots[..n], i, e);
        } else {
          DeletingOn(t, back, len0, i, e);
        }
      }
      DeletingEnds(t, slots[..n], len, e);
      assert slots[..n][..len] == Entries();
    }
  }
}
