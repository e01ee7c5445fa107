/** The daemon's registry of devices and note targets (sricd/device.c) and the requests that use it (sricd/ipc.c). */
module Daemon {
  import opened Bytes
  import opened Crc16
  import opened FlagWord
  import opened NoteTargets
  import opened NoteRegistry
  import opened Ipc
  import opened Clients
  import opened DeviceList

  type Entry = Target<Client>

  /** A client after a note has come in that it may or may not want. */
  function Offered(s: State, wanted: bool, note: RxFrame): State {
    if wanted then Noted(s, note) else s
  }

  /** What handle_note_flags does with the bytes behind the command. A short read of the flags is reported but not
      otherwise acted on: the code goes on with whatever `junk` is in its variable, and answers a second time. */
  ghost predicate FlagsServed(c: Client, input: seq<byte>, said: seq<byte>, written: seq<byte>, junk: bv64,
                              targets: seq<seq<Entry>>, targets': seq<seq<Entry>>, mask: Mask, mask': Mask,
                              types: seq<int>, wild: bv64)
    requires |targets| == |types| == ADDRESSES
  {
    if |input| < 2 then targets' == targets && mask' == mask && written == said + [E_BADREQUEST]
    else
      var address := OfBe16(input[0], input[1]);
      var short := |input| < 10;
      var flags := if short then Load(Reversed8(Memory(junk))) else FlagsRead(input[2..10]);
      var so := said + if short then [E_BADREQUEST] else [];
      && address < ADDRESSES
      && if types[address] == NO_DEVICE then targets' == targets && mask' == mask && written == so + [E_BADADDR]
         else
           && targets' == targets[address := SetNotes(targets[address], c, flags)]
           && mask' == NewMask(mask, address, flags, wild) && written == so + [E_SUCCESS]
  }

  /** `wild` is what the platform makes of 1 << 64, which is undefined. */
  class DeviceTable {
    const targets: array<seq<Entry>>
    const types: array<int>
    const wild: bv64

    ghost predicate Valid()
      reads this, targets, types
    {
      && targets.Length == ADDRESSES && Types(types[..])
      && forall a :: 0 <= a < ADDRESSES ==> Proper(targets[a])
    }

    /** device_reset */
    constructor (w: bv64)
      ensures Valid() && fresh(targets) && fresh(types) && wild == w
      ensures forall a :: 0 <= a < ADDRESSES ==> targets[a] == []
      ensures OnlyMaster(types[..])
    {
      var noTargets: seq<Entry> := [];
      targets := new seq<Entry>[ADDRESSES](_ => noTargets);
      types := new int[ADDRESSES](i => if i == 0 then BROADCAST else if i == 1 then MASTER else NO_DEVICE);
      wild := w;
    }

    /** device_add */
    method DeviceAdd(address: nat, kind: int)
      requires Valid() && address < ADDRESSES && -128 <= kind < 128
      modifies types
      ensures Valid() && types[..] == old(types[..])[address := kind]
    {
      types[address] := kind;
      assert types[..] == old(types[..])[address := kind];
    }

    /** The loop of the enumeration code over the addresses it gave out. */
    method AddClasses(classes: array<byte>, end: nat)
      requires Valid() && classes.Length == ADDRESSES && end <= ADDRESSES && types as object != classes as object
      modifies types
      ensures Valid() && types[..] == WithClasses(old(types[..]), classes[..], end)
    {
      var i := 2;
      ghost var cs := classes[..];
      while i < end
        invariant 2 <= i && (i <= end || i == 2)
        invariant Valid() && classes[..] == cs
        invariant types[..] == WithClasses(old(types[..]), cs, if i <= end then i else end)
      {
        DeviceAdd(i, SignedChar(classes[i]));
        i := i + 1;
      }
    }

    predicate DeviceExists(address: nat)
      requires address < types.Length
      reads types
    {
      types[address] != NO_DEVICE
    }

    // ----- Targets -----

    method DropClientNotes(address: nat, c: Client)
      requires targets.Length == ADDRESSES && address < ADDRESSES
      modifies targets
      ensures targets[..] == old(targets[..])[address := Drop(old(targets[address]), c)]
    {
      ghost var i0 := IndexOf(targets[address], c);
      var ts := targets[address];
      var i := 0;
      while i < |ts|
        invariant 0 <= i <= i0
      {
        if ts[i].who == c {
          targets[address] := ts[..i] + ts[i + 1..];
          return;
        }
        i := i + 1;
      }
    }

    method UpdateClientNotes(address: nat, c: Client, notes: bv64)
      requires targets.Length == ADDRESSES && address < ADDRESSES
      modifies targets
      ensures targets[..] == old(targets[..])[address := Update(old(targets[address]), c, notes)]
    {
      ghost var i0 := IndexOf(targets[address], c);
      var ts := targets[address];
      var i := 0;
      while i < |ts|
        invariant 0 <= i <= i0
      {
        if ts[i].who == c {
          targets[address] := ts[i := Target(c, notes)];
          return;
        }
        i := i + 1;
      }
      targets[address] := ts + [Target(c, notes)];
    }

    method SetClientNotes(address: nat, c: Client, notes: bv64)
      requires targets.Length == ADDRESSES && address < ADDRESSES
      modifies targets, c`mask
      ensures targets[..] == old(targets[..])[address := SetNotes(old(targets[address]), c, notes)]
      ensures c.mask == NewMask(old(c.mask), address, notes, wild)
    {
      var flag := Shifted(Place(address), wild);
      if notes != 0 {
        c.mask := if address > 64 then c.mask.(word1 := Or(c.mask.word1, flag))
          else c.mask.(word0 := Or(c.mask.word0, flag));
        UpdateClientNotes(address, c, notes);
      } else {
        c.mask :=
          if address > 64 then c.mask.(word1 := AndNot(c.mask.word1, flag))
            else c.mask.(word0 := AndNot(c.mask.word0, flag));
        DropClientNotes(address, c);
      }
    }

    method ClearClientNotes(c: Client)
      requires Valid()
      modifies targets, c`mask
      ensures Valid() && targets[..] == AllDropped(old(targets[..]), c)
      ensures c.mask == MaskFrom(old(c.mask), 2, wild)
    {
      hide NewMask, Update;
      for i := 2 to ADDRESSES
        invariant forall a :: 0 <= a < ADDRESSES ==>
          targets[a] == if 2 <= a < i then Drop(old(targets[a]), c) else old(targets[a])
        invariant MaskFrom(c.mask, i, wild) == MaskFrom(old(c.mask), 2, wild)
      {
        SetClientNotes(i, c, 0);
      }
      forall a | 0 <= a < ADDRESSES ensures Proper(targets[a]) {
        SetProper(old(targets[a]), c, 0);
      }
    }

    /** A note goes to the clients that it is dispatched to, once, and to no other; `shift` is what the platform makes
        of a shift by 64 or more. */
    method DispatchNote(note: RxFrame, shift: bv64)
      requires Valid() && note.source < ADDRESSES
      modifies set t | t in targets[note.source] :: t.who
      ensures forall t :: t in targets[note.source] ==>
        t.who.Snapshot() == Offered(old(t.who.Snapshot()),
                                    t.who in Dispatched(targets[note.source], Shifted(note.note, shift)), note)
    {
      hide Shifted, Offered, Client.Snapshot, Dispatched;
      var ts := targets[note.source];
      var flag := Shifted(note.note, shift);
      assert Proper(ts);
      var i := 0;
      while i < |ts|
        invariant 0 <= i <= |ts|
        invariant forall j :: 0 <= j < i ==>
          ts[j].who.Snapshot() == Offered(old(ts[j].who.Snapshot()), ts[j].who in Dispatched(ts, flag), note)
        invariant forall j :: i <= j < |ts| ==> ts[j].who.Snapshot() == old(ts[j].who.Snapshot())
      {
        DispatchedHas(ts, flag, i);
        Offer(ts[i], flag, note);
        i := i + 1;
      }
    }

    static method Offer(t: Entry, flag: bv64, note: RxFrame)
      modifies t.who
      ensures t.who.Snapshot() == Offered(old(t.who.Snapshot()), Has(t.flags, flag), note)
    {
      if Has(t.flags, flag) {
        t.who.PushNote(note);
      }
    }

    // ----- Requests -----

    /** handle_note_flags */
    method HandleNoteFlags(c: Client, junk: bv64)
      requires Valid()
      requires |c.inbox| >= 2 ==> OfBe16(c.inbox[0], c.inbox[1]) < ADDRESSES
      modifies targets, c`mask, c`inbox, c`written
      ensures Valid()
      ensures FlagsServed(c, old(c.inbox), old(c.written), c.written, junk, old(targets[..]), targets[..],
                          old(c.mask), c.mask, types[..], wild)
    {
      hide SetNotes, NewMask, Load, Octet;
      var data := c.ReadData(2);
      if data == None {
        c.WriteResult(E_BADREQUEST);
        return;
      }
      var device := OfBe16(data.value[0], data.value[1]);
      data := c.ReadData(8);
      var flags := junk;
      if data == None {
        c.WriteResult(E_BADREQUEST);
      } else {
        flags := LoadBytes(data.value);
      }
      flags := Ntohll(flags);
      if !DeviceExists(device) {
        c.WriteResult(E_BADADDR);
        return;
      }
      SetProper(targets[device], c, flags);
      SetClientNotes(device, c, flags);
      c.WriteResult(E_SUCCESS);
    }

    method HandleNoteClear(c: Client)
      requires Valid()
      modifies targets, c`mask, c`written
      ensures Valid() && targets[..] == AllDropped(old(targets[..]), c)
      ensures c.mask == MaskFrom(old(c.mask), 2, wild) && c.written == old(c.written) + [E_SUCCESS]
    {
      hide Valid, Drop;
      ClearClientNotes(c);
      c.WriteResult(E_SUCCESS);
    }

    method HandleListDevices(c: Client)
      requires Valid()
      modifies c`written
      ensures c.written == old(c.written) + ListBytes(Existing(types[..], ADDRESSES))
    {
      var count := 0;
      for i := 0 to ADDRESSES
        invariant count == |Existing(types[..], i)|
      {
        if DeviceExists(i) {
          count := count + 1;
        }
      }
      c.WriteResult(E_SUCCESS);
      c.written := c.written + Be16(count);
      ghost var header := c.written;
      for i := 0 to ADDRESSES
        invariant c.written == header + Entries(Existing(types[..], i))
      {
        if DeviceExists(i) {
          WriteEntry(c, i, Existing(types[..], i), header);
        }
      }
    }

    method WriteEntry(c: Client, i: nat, ghost before: seq<Device>, ghost header: seq<byte>)
      requires i < types.Length && c.written == header + Entries(before)
      modifies c`written
      ensures c.written == header + Entries(before + [Device(i, types[i])])
    {
      c.written := c.written + Be16(i);
      c.written := c.written + Be16(types[i]);
      ghost var all := before + [Device(i, types[i])];
      assert all[..|all| - 1] == before;
    }
  }
}
