/** The device list: what the daemon writes (sricd/ipc.c, handle_list_devices) and what libsric makes of it. */
module DeviceList {
  import opened Bytes
  import opened Ipc

  /** The type of an address at which there is no device. */
  const NO_DEVICE := -1

  /** The types of the addresses 0 and 1. */
  const BROADCAST := -2
  const MASTER := 0

  datatype Device = Device(address: int, kind: int)

  /** device_types: one signed char per address. */
  predicate Types(types: seq<int>) {
    |types| == HIGH_ADDRESS && forall i :: 0 <= i < |types| ==> -128 <= types[i] < 128
  }

  /** The devices at addresses below n, in address order. */
  function Existing(types: seq<int>, n: nat): (ds: seq<Device>)
    requires n <= |types|
    ensures |ds| <= n
  {
    if n == 0 then []
    else if types[n - 1] == NO_DEVICE then Existing(types, n - 1)
    else Existing(types, n - 1) + [Device(n - 1, types[n - 1])]
  }

  lemma {:induction false} ExistingExactly(types: seq<int>, n: nat, d: Device)
    requires n <= |types|
    ensures d in Existing(types, n) <==> 0 <= d.address < n && types[d.address] == d.kind && d.kind != NO_DEVICE
  {
    if n > 0 {
      ExistingExactly(types, n - 1, d);
    }
  }

  lemma {:induction false} ExistingSorted(types: seq<int>, n: nat, i: nat, j: nat)
    requires n <= |types| && i < j < |Existing(types, n)|
    ensures Existing(types, n)[i].address < Existing(types, n)[j].address < n
  {
    if types[n - 1] == NO_DEVICE {
      ExistingSorted(types, n - 1, i, j);
    } else {
      var front := Existing(types, n - 1);
      if j < |front| {
        ExistingSorted(types, n - 1, i, j);
      } else {
        assert front[i] in front;
        ExistingExactly(types, n - 1, front[i]);
      }
    }
  }

  // ----- On the socket -----

  function Entry(d: Device): (b: seq<byte>)
    ensures |b| == 4
  {
    Be16(d.address) + Be16(d.kind)
  }

  function Entries(ds: seq<Device>): (b: seq<byte>)
    ensures |b| == 4 * |ds|
  {
    if ds == [] then [] else Entries(ds[..|ds| - 1]) + Entry(ds[|ds| - 1])
  }

  function ListBytes(ds: seq<Device>): seq<byte> {
    [E_SUCCESS] + Be16(|ds|) + Entries(ds)
  }

  function EntryRead(b: seq<byte>): Device
    requires |b| == 4
  {
    Device(Signed(OfBe16(b[0], b[1]), 0x8000), Signed(OfBe16(b[2], b[3]), 0x8000))
  }

  function EntriesRead(b: seq<byte>, n: nat): (ds: seq<Device>)
    requires |b| >= 4 * n
    ensures |ds| == n
  {
    if n == 0 then [] else EntriesRead(b, n - 1) + [EntryRead(b[4 * n - 4..4 * n])]
  }

  predicate Fits(d: Device) {
    -0x8000 <= d.address < 0x8000 && -0x8000 <= d.kind < 0x8000
  }

  lemma EntryRoundTrip(d: Device)
    requires Fits(d)
    ensures EntryRead(Entry(d)) == d
  {
    var b := Entry(d);
    assert b == [b[0], b[1], b[2], b[3]];
    Be16RoundTrip(d.address);
    Be16RoundTrip(d.kind);
    SignedRoundTrip(d.address);
    SignedRoundTrip(d.kind);
    hide Signed;
  }

  lemma {:induction false} EntriesPrefix(x: seq<byte>, y: seq<byte>, n: nat)
    requires |x| >= 4 * n
    ensures EntriesRead(x + y, n) == EntriesRead(x, n)
  {
    if n > 0 {
      hide EntryRead;
      EntriesPrefix(x, y, n - 1);
      assert (x + y)[4 * n - 4..4 * n] == x[4 * n - 4..4 * n];
    }
  }

  lemma OneMoreEntry(x: seq<byte>, y: seq<byte>, n: nat)
    requires |x| == 4 * n && |y| == 4
    ensures EntriesRead(x + y, n + 1) == EntriesRead(x, n) + [EntryRead(y)]
  {
    EntriesPrefix(x, y, n);
    hide EntryRead;
    assert (x + y)[4 * n..4 * n + 4] == y;
  }

  lemma {:induction false} EntriesRoundTrip(ds: seq<Device>)
    requires forall d :: d in ds ==> Fits(d)
    ensures EntriesRead(Entries(ds), |ds|) == ds
  {
    if ds != [] {
      var n := |ds|;
      var front, last := ds[..n - 1], ds[n - 1];
      hide EntryRead, Entry, EntriesRead;
      EntriesRoundTrip(front);
      OneMoreEntry(Entries(front), Entry(last), n - 1);
      EntryRoundTrip(last);
      assert front + [last] == ds;
    }
  }

  // ----- Walking the list -----

  const SENTINEL := Device(0, NO_DEVICE)

  /** sric_enumerate_devices: from the entry at index i of the list to the next one, if any. */
  function NextDevice(ds: seq<Device>, i: nat): Option<nat>
    requires i + 1 < |ds|
  {
    if ds[i + 1].kind == NO_DEVICE then None else Some(i + 1)
  }

  /** What the walk from the entry at index i on visits. */
  function Walk(ds: seq<Device>, i: nat): seq<Device>
    requires i + 1 < |ds| && ds[|ds| - 1] == SENTINEL
    decreases |ds| - i
  {
    var next := NextDevice(ds, i);
    [ds[i]] + if next == None then [] else Walk(ds, next.value)
  }

  lemma {:induction false} WalkVisitsAll(ds: seq<Device>, i: nat)
    requires i < |ds| && forall d :: d in ds ==> d.kind != NO_DEVICE
    ensures Walk(ds + [SENTINEL], i) == ds[i..]
    decreases |ds| - i
  {
    var all := ds + [SENTINEL];
    if i + 1 == |ds| {
      assert all[i + 1] == SENTINEL;
      assert ds[i..] == [ds[i]];
    } else {
      assert all[i + 1] in ds;
      WalkVisitsAll(ds, i + 1);
      assert ds[i..] == [ds[i]] + ds[i + 1..];
    }
  }

  /** The daemon's own two addresses are always listed. */
  predicate HasMaster(types: seq<int>) {
    |types| > 1 && types[0] != NO_DEVICE && types[1] != NO_DEVICE
  }

  lemma {:induction false} NotEmpty(types: seq<int>, n: nat)
    requires 0 < n <= |types| && HasMaster(types)
    ensures Existing(types, n) != []
  {
    if n > 1 {
      NotEmpty(types, n - 1);
    }
  }

  lemma ExistingFit(types: seq<int>)
    requires Types(types)
    ensures forall d :: d in Existing(types, HIGH_ADDRESS) ==> Fits(d) && d.kind != NO_DEVICE
  {
    hide Existing;
    forall d | d in Existing(types, HIGH_ADDRESS) ensures Fits(d) && d.kind != NO_DEVICE {
      ExistingExactly(types, HIGH_ADDRESS, d);
    }
  }

  /** An application that walks the list sees each existing device once, in address order, with its type,
      and the walk ends. */
  lemma WalkSeesAllDevices(types: seq<int>)
    requires Types(types) && HasMaster(types)
    ensures var ds := Existing(types, HIGH_ADDRESS);
      var got := EntriesRead(Entries(ds), |ds|) + [SENTINEL];
      |got| >= 2 && Walk(got, 0) == ds
  {
    var ds := Existing(types, HIGH_ADDRESS);
    NotEmpty(types, HIGH_ADDRESS);
    ExistingFit(types);
    hide Existing;
    EntriesRoundTrip(ds);
    WalkVisitsAll(ds, 0);
  }

  // ----- After enumeration -----

  /** A class byte as a signed char: the one with the same eight bits. */
  function SignedChar(b: byte): (c: int)
    ensures -128 <= c < 128 && c % 0x100 == b
  {
    if b < 0x80 then b as int else b as int - 0x100
  }

  /** The types once the addresses from 2 up to, not including, `end` are added with their classes. */
  function WithClasses(types: seq<int>, classes: seq<byte>, end: nat): (r: seq<int>)
    requires |types| == |classes| == HIGH_ADDRESS && end <= HIGH_ADDRESS
    ensures |r| == |types|
    ensures forall a :: 0 <= a < |r| ==> r[a] == if 2 <= a < end then SignedChar(classes[a]) else types[a]
  {
    if end <= 2 then types else WithClasses(types, classes, end - 1)[end - 1 := SignedChar(classes[end - 1])]
  }

  /** device_reset */
  predicate OnlyMaster(types: seq<int>) {
    && Types(types) && types[0] == BROADCAST && types[1] == MASTER
    && forall a :: 2 <= a < |types| ==> types[a] == NO_DEVICE
  }

  /** What device_reset gives an address. */
  function FixedType(a: int): int { if a == 0 then BROADCAST else if a == 1 then MASTER else NO_DEVICE }

  /** The table holds what device_reset put there and the devices added since. */
  predicate TableAgrees(types: seq<int>, added: map<nat, byte>) {
    && Types(types) && (forall a :: a in added ==> 2 <= a < HIGH_ADDRESS)
    && forall a: nat :: a < |types| ==> types[a] == if a in added then SignedChar(added[a]) else FixedType(a)
  }

  lemma ResetAgrees(types: seq<int>)
    requires OnlyMaster(types)
    ensures TableAgrees(types, map[])
  {}

  /** What an application sees: the two fixed addresses, and exactly those added whose class is not 0xFF, each with its
      class as a signed char, in address order. */
  lemma WalkAfterEnumeration(types: seq<int>, added: map<nat, byte>, d: Device)
    requires TableAgrees(types, added)
    ensures Types(types) && HasMaster(types)
    ensures var ds := Existing(types, HIGH_ADDRESS);
      var got := EntriesRead(Entries(ds), |ds|) + [SENTINEL];
      && |got| >= 2 && Walk(got, 0) == ds
      && (d in ds <==> d == Device(0, BROADCAST) || d == Device(1, MASTER)
                       || (d.address >= 2 && d.address in added && added[d.address] != 0xFF
                         && d.kind == SignedChar(added[d.address])))
  {
    assert types[0] == BROADCAST && types[1] == MASTER;
    hide Existing, Entries, EntriesRead, Walk;
    WalkSeesAllDevices(types);
    ExistingExactly(types, HIGH_ADDRESS, d);
    if 0 <= d.address < HIGH_ADDRESS {
      var a: nat := d.address;
      assert types[a] == if a in added then SignedChar(added[a]) else FixedType(a);
    }
  }
}
