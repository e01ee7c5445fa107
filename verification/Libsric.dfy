/** The client library's context (libsric/sric.c, libsric/sric.h). */
module Libsric {
  import opened Bytes
  import opened Ipc
  import opened DeviceList
  import opened FlagCache

  /** What send_command reports for what it finds on the socket. */
  function Answer(up: bool, input: seq<byte>): SricError {
    if !up || input == [] then Sricd else ErrorOf(input[0])
  }

  /** A command succeeds exactly if the connection is up and the daemon answers with success; a dead connection is the
      daemon's fault. */
  lemma AnswerMeans(up: bool, input: seq<byte>)
    ensures Answer(up, input) == NoError <==> up && input != [] && input[0] == E_SUCCESS
    ensures !up || input == [] ==> Answer(up, input) == Sricd
  {}

  /** The device list as sric_refresh_devices leaves it, sentinel included. */
  function RefreshAnswer(up: bool, input: seq<byte>): Option<seq<Device>> {
    if Answer(up, input) != NoError || |input| < 3 then None
    else
      var n := OfBe16(input[1], input[2]);
      if |input| < 3 + 4 * n then None else Some(EntriesRead(input[3..], n) + [SENTINEL])
  }

  /** There is a list exactly if all the entries announced came, and then it has them all, and the sentinel. */
  lemma AllOrNothing(up: bool, input: seq<byte>)
    ensures RefreshAnswer(up, input).Some? <==>
      up && |input| >= 3 && input[0] == E_SUCCESS && |input| >= 3 + 4 * OfBe16(input[1], input[2])
    ensures RefreshAnswer(up, input).Some? ==>
      var ds := RefreshAnswer(up, input).value;
      |ds| == OfBe16(input[1], input[2]) + 1 && ds[|ds| - 1] == SENTINEL
  {
    hide EntriesRead;
  }

  /** A whole device list comes across as it was sent. */
  lemma RefreshRoundTrip(types: seq<int>, rest: seq<byte>)
    requires Types(types)
    ensures var ds := Existing(types, HIGH_ADDRESS);
      RefreshAnswer(true, ListBytes(ds) + rest) == Some(ds + [SENTINEL])
  {
    var ds := Existing(types, HIGH_ADDRESS);
    ExistingFit(types);
    hide Existing;
    EntriesRoundTrip(ds);
    EntriesPrefix(Entries(ds), rest, |ds|);
    RefreshParts(|ds|, Entries(ds) + rest);
    hide Entries, EntriesRead, RefreshAnswer;
    assert ListBytes(ds) + rest == [E_SUCCESS] + Be16(|ds|) + (Entries(ds) + rest);
  }

  lemma RefreshParts(n: nat, body: seq<byte>)
    requires n < 0x1_0000 && |body| >= 4 * n
    ensures RefreshAnswer(true, [E_SUCCESS] + Be16(n) + body) == Some(EntriesRead(body, n) + [SENTINEL])
  {
    hide EntriesRead, Be16, OfBe16, RefreshAnswer;
    var input := [E_SUCCESS] + Be16(n) + body;
    Be16RoundTrip(n);
    assert input[1] == Be16(n)[0] && input[2] == Be16(n)[1];
    assert input[3..] == body;
    RefreshOf(input, n);
  }

  lemma RefreshOf(input: seq<byte>, n: nat)
    requires |input| >= 3 + 4 * n && input[0] == E_SUCCESS && OfBe16(input[1], input[2]) == n
    ensures RefreshAnswer(true, input) == Some(EntriesRead(input[3..], n) + [SENTINEL])
  {
    hide EntriesRead, OfBe16;
  }

  /** `inbox` is what the daemon has written, or will have written by the time it is read; `outbox` is what
      was sent to it; a connection that is not `up` takes nothing. */
  class Context {
    const up: bool
    const noteflags: array<bv64>
    var error: SricError
    var devices: Option<seq<Device>>
    var inbox: seq<byte>
    var outbox: seq<byte>

    constructor (connected: bool, input: seq<byte>)
      ensures noteflags.Length == HIGH_ADDRESS && fresh(noteflags)
      ensures noteflags[..] == Zeros(HIGH_ADDRESS)
      ensures error == NoError && devices == None && inbox == input && outbox == [] && up == connected
    {
      noteflags := new bv64[HIGH_ADDRESS](_ => 0);
      error, devices := NoError, None;
      inbox, outbox, up := input, [], connected;
    }

    // ----- Socket -----

    method SendCommand(data: seq<byte>) returns (failed: bool)
      modifies this`error, this`inbox, this`outbox
      ensures outbox == if up then old(outbox) + data else old(outbox)
      ensures failed <==> Answer(up, old(inbox)) != NoError
      ensures error == if failed then Answer(up, old(inbox)) else old(error)
      ensures inbox == if up && old(inbox) != [] then old(inbox)[1..] else old(inbox)
    {
      if !up {
        error := Sricd;
        return true;
      }
      outbox := outbox + data;
      if inbox == [] {
        error := Sricd;
        return true;
      }
      var result := inbox[0];
      inbox := inbox[1..];
      if result == E_BADADDR {
        error := BadPayload;
        return true;
      } else if result == E_TIMEOUT {
        error := Timeout;
        return true;
      } else if result != 0 {
        error := Sricd;
        return true;
      }
      return false;
    }

    method ReadData(length: nat) returns (data: Option<seq<byte>>)
      modifies this`error, this`inbox
      ensures |old(inbox)| >= length ==>
        data == Some(old(inbox)[..length]) && inbox == old(inbox)[length..] && error == old(error)
      ensures |old(inbox)| < length ==> data == None && inbox == [] && error == Sricd
    {
      if |inbox| >= length {
        data := Some(inbox[..length]);
        inbox := inbox[length..];
      } else {
        data := None;
        inbox := [];
        error := Sricd;
      }
    }

    // ----- Notification flags -----

    method NoteSetFlags(device: int, flags: bv64) returns (failed: bool)
      requires noteflags.Length == HIGH_ADDRESS
      modifies this`error, this`inbox, this`outbox, noteflags
      ensures var why := CheckAddress(device, false);
        if why != NoError then
          failed && error == why && noteflags[..] == old(noteflags[..]) && outbox == old(outbox) && inbox == old(inbox)
        else if old(noteflags[device]) == flags then
          !failed && error == NoError && noteflags[..] == old(noteflags[..]) && outbox == old(outbox)
            && inbox == old(inbox)
        else
          && noteflags[..] == old(noteflags[..])[device := flags]
          && outbox == (if up then old(outbox) + FlagsCommand(device, flags) else old(outbox))
          && error == Answer(up, old(inbox)) && (failed <==> error != NoError)
    {
      error := NoError;
      var why := CheckAddress(device, false);
      if why != NoError {
        error := why;
        return true;
      }
      if noteflags[device] != flags {
        noteflags[device] := flags;
        failed := SendCommand(FlagsCommand(device, flags));
      } else {
        return false;
      }
    }

    method NoteGetFlags(device: int) returns (flags: bv64)
      requires noteflags.Length == HIGH_ADDRESS
      modifies this`error
      ensures error == CheckAddress(device, false)
      ensures flags == if error == NoError then noteflags[device] else 0
    {
      error := CheckAddress(device, false);
      if error != NoError {
        return 0;
      }
      return noteflags[device];
    }

    method NoteUnregisterAll() returns (failed: bool)
      requires noteflags.Length == HIGH_ADDRESS
      modifies this`error, this`inbox, this`outbox, noteflags
      ensures noteflags[..] == Zeros(HIGH_ADDRESS)
      ensures outbox == if up then old(outbox) + [SRICD_NOTE_CLEAR] else old(outbox)
      ensures error == Answer(up, old(inbox)) && (failed <==> error != NoError)
    {
      for i := 0 to HIGH_ADDRESS
        modifies noteflags
        invariant forall j :: 0 <= j < i ==> noteflags[j] == 0
      {
        noteflags[i] := 0;
      }
      error := NoError;
      failed := SendCommand([SRICD_NOTE_CLEAR]);
    }

    // ----- Frames -----

    /** check_frame and sric_tx: `note` is -1 for anything that may be sent. */
    method Tx(address: int, note: int, payload: seq<byte>) returns (failed: bool)
      modifies this`error, this`inbox, this`outbox
      ensures var why := CheckAddress(address, true);
        if why != NoError || note != -1 || |payload| > 64 then
          && failed && outbox == old(outbox) && inbox == old(inbox)
          && error == (if why != NoError then why else if note != -1 then NoSendNote else BadPayload)
        else
          && outbox == (if up then old(outbox) + TxCommand(address, payload) else old(outbox))
          && error == Answer(up, old(inbox)) && (failed <==> error != NoError)
    {
      error := NoError;
      var why := CheckAddress(address, true);
      if why != NoError {
        error := why;
        return true;
      } else if note != -1 {
        error := NoSendNote;
        return true;
      } else if |payload| > 64 {
        error := BadPayload;
        return true;
      }
      failed := SendCommand(TxCommand(address, payload));
    }

    /** sric_poll; `kind` says which queue of the daemon is asked. */
    method Poll(kind: byte, timeout: int) returns (outcome: PollOutcome)
      modifies this`error, this`inbox, this`outbox
      ensures outbox == if up then old(outbox) + PollCommand(kind, timeout) else old(outbox)
      ensures !up ==> outcome == Failed(Sricd)
      ensures up ==> outcome == PollAnswer(old(inbox)).0
      ensures up ==> inbox == PollAnswer(old(inbox)).1
      ensures error == if outcome.Failed? then outcome.error else NoError
    {
      ghost var input := inbox;
      error := NoError;
      var failed := SendCommand(PollCommand(kind, timeout));
      if failed {
        return Failed(error);
      }
      var data := ReadData(2);
      if data == None {
        return Failed(error);
      }
      var address := OfBe16(data.value[0], data.value[1]);
      data := ReadData(2);
      if data == None {
        return Failed(error);
      }
      var note := OfBe16(data.value[0], data.value[1]);
      data := ReadData(2);
      if data == None {
        return Failed(error);
      }
      var length := OfBe16(data.value[0], data.value[1]);
      assert inbox == input[7..];
      if length == 0 {
        return Got(address, note, []);
      }
      data := ReadData(length);
      if data == None {
        return Failed(error);
      }
      assert input[7..][length..] == input[7 + length..];
      outcome := Got(address, note, data.value);
    }

    method PollRx(timeout: int) returns (outcome: PollOutcome)
      modifies this`error, this`inbox, this`outbox
      ensures up ==> outbox == old(outbox) + PollCommand(SRICD_POLL_RX, timeout)
      ensures up ==> (outcome, inbox) == PollAnswer(old(inbox))
      ensures !up ==> outbox == old(outbox) && outcome == Failed(Sricd)
      ensures error == if outcome.Failed? then outcome.error else NoError
    {
      hide PollAnswer, PollCommand;
      outcome := Poll(SRICD_POLL_RX, timeout);
    }

    method PollNote(timeout: int) returns (outcome: PollOutcome)
      modifies this`error, this`inbox, this`outbox
      ensures up ==> outbox == old(outbox) + PollCommand(SRICD_POLL_NOTE, timeout)
      ensures up ==> (outcome, inbox) == PollAnswer(old(inbox))
      ensures !up ==> outbox == old(outbox) && outcome == Failed(Sricd)
      ensures error == if outcome.Failed? then outcome.error else NoError
    {
      hide PollAnswer, PollCommand;
      outcome := Poll(SRICD_POLL_NOTE, timeout);
    }

    // ----- Devices -----

    method RefreshDevices()
      modifies this`error, this`inbox, this`outbox, this`devices
      ensures outbox == if up then old(outbox) + [SRICD_LIST_DEVICES] else old(outbox)
      ensures devices == RefreshAnswer(up, old(inbox))
    {
      ghost var input := inbox;
      devices := None;
      var failed := SendCommand([SRICD_LIST_DEVICES]);
      if failed {
        return;
      }
      var data := ReadData(2);
      if data == None {
        return;
      }
      var n := OfBe16(data.value[0], data.value[1]);
      assert inbox == input[3..];
      var got := ReadEntries(n);
      if got.Some? {
        devices := Some(got.value + [SENTINEL]);
      }
    }

    /** The loop of sric_refresh_devices: two numbers for each device. */
    method ReadEntries(n: nat) returns (got: Option<seq<Device>>)
      modifies this`error, this`inbox
      ensures got == if |old(inbox)| >= 4 * n then Some(EntriesRead(old(inbox), n)) else None
    {
      ghost var input := inbox;
      var ds: seq<Device> := [];
      for i := 0 to n
        invariant |input| >= 4 * i && inbox == input[4 * i..] && ds == EntriesRead(input, i)
      {
        var address := ReadData(2);
        if address == None {
          return None;
        }
        var kind := ReadData(2);
        if kind == None {
          return None;
        }
        ghost var b := input[4 * i..4 * i + 4];
        assert address.value == b[..2] && kind.value == b[2..];
        ds := ds + [Device(Signed(OfBe16(address.value[0], address.value[1]), 0x8000),
                           Signed(OfBe16(kind.value[0], kind.value[1]), 0x8000))];
        assert b == input[4 * (i + 1) - 4..4 * (i + 1)];
      }
      got := Some(ds);
    }

    /** sric_enumerate_devices, with the position in the list in place of the pointer: from the start, or the
        next entry after one that was not the sentinel. */
    method EnumerateDevices(device: Option<nat>) returns (next: Option<nat>)
      requires device.Some? ==> devices.Some? && device.value + 1 < |devices.value|
      modifies this`error, this`inbox, this`outbox, this`devices
      ensures device == None ==>
        devices == RefreshAnswer(up, old(inbox)) && next == if devices == None then None else Some(0)
      ensures device.Some? ==> devices == old(devices) && next == NextDevice(old(devices).value, device.value)
    {
      if device == None {
        RefreshDevices();
        next := if devices == None then None else Some(0);
      } else {
        var i := device.value + 1;
        next := if devices.value[i].kind == -1 then None else Some(i);
      }
    }
  }
}
