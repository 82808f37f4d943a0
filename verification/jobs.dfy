/** Job lists as packets: what is sent to a device and what is read back. */
module Jobs {
  import opened Addresses
  import opened Words

  const NAME := 12
  const PACKET := 22

  datatype Time = Time(hour: nat, minute: nat)

  // One element of the message's job list: exec is the memory from the start of the program name on.
  datatype Item =
    | Malformed
    | Item(begin: Time, end: Time, days: nat, priority: nat, exec: seq<Byte>, arg: int)

  datatype Job = Job(before: Time, after: Time, days: nat, priority: nat, app: seq<Byte>, arg: int)

  // At least a packet's worth of memory follows the start of the name; the argument is a 32-bit integer.
  predicate Readable(i: Item) {
    i.Item? ==> |i.exec| >= NAME && Int32(i.arg)
  }

  predicate AllReadable(items: seq<Item>) {
    forall i :: i in items ==> Readable(i)
  }

  function Taken(items: seq<Item>): (taken: seq<Item>)
    ensures forall i :: i in taken ==> i.Item?
    ensures AllReadable(items) ==> AllReadable(taken)
  {
    if items == [] then []
    else
      var i := items[|items| - 1];
      Taken(items[..|items| - 1]) + if i.Item? then [i] else []
  }

  // A C string: what stands before the first NUL
  function Terminated(memory: seq<Byte>): seq<Byte> {
    if memory == [] || memory[0] == 0 then [] else [memory[0]] + Terminated(memory[1..])
  }

  /* The packet of one job */

  function Packet(i: Item): (p: seq<Byte>)
    requires i.Item? && Readable(i)
    ensures |p| == PACKET
  {
    [i.begin.hour % 256, i.begin.minute % 256, i.end.hour % 256, i.end.minute % 256,
     i.days % 256, i.priority % 256] + Bytes(i.arg) + i.exec[..NAME - 1] + [0]
  }

  function Packets(items: seq<Item>): (p: seq<Byte>)
    requires AllReadable(items)
    ensures |p| == PACKET * |Taken(items)|
  {
    if items == [] then []
    else
      var i := items[|items| - 1];
      Packets(items[..|items| - 1]) + if i.Item? then Packet(i) else []
  }

  function JobOf(p: seq<Byte>): Job
    requires |p| == PACKET
  {
    Job(Time(p[0], p[1]), Time(p[2], p[3]), p[4], p[5], Terminated(p[10..]), Signed(p[6..10]))
  }

  predicate Whole(data: seq<Byte>) {
    |data| % PACKET == 0
  }

  function JobsOf(data: seq<Byte>): seq<Job>
    requires Whole(data)
    decreases |data|
  {
    if data == [] then [] else [JobOf(data[..PACKET])] + JobsOf(data[PACKET..])
  }

  /* Sending */

  method Write(buf: array<Byte>, offset: nat, bytes: seq<Byte>)
    requires offset + |bytes| <= buf.Length
    modifies buf
    ensures buf[..] == old(buf[..offset]) + bytes + old(buf[offset + |bytes|..])
  {
    for k := 0 to |bytes|
      invariant buf[..] == old(buf[..offset]) + bytes[..k] + old(buf[offset + k..])
    {
      buf[offset + k] := bytes[k];
    }
  }

  method WritePacket(buf: array<Byte>, offset: nat, i: Item)
    requires i.Item? && Readable(i) && offset + PACKET <= buf.Length
    modifies buf
    ensures buf[..] == old(buf[..offset]) + Packet(i) + old(buf[offset + PACKET..])
  {
    hide Bytes;
    var fixed := [i.begin.hour % 256, i.begin.minute % 256, i.end.hour % 256, i.end.minute % 256,
                  i.days % 256, i.priority % 256];
    var exec := i.exec[..NAME];
    exec := exec[NAME - 1 := 0];
    assert exec == i.exec[..NAME - 1] + [0];
    Write(buf, offset, fixed);
    Write(buf, offset + 6, Bytes(i.arg) + exec);
    assert fixed + (Bytes(i.arg) + exec) == Packet(i);
  }

  // One round of the loop: an item that is not well formed is skipped.
  method PutItem(items: seq<Item>, n: nat, buf: array<Byte>, offset: nat, ghost was: seq<Byte>) returns (end: nat)
    requires n < |items| && AllReadable(items) && PACKET * |Taken(items)| <= buf.Length == |was|
    requires AllReadable(items[..n]) && offset == |Packets(items[..n])| <= |was|
    requires buf[..] == Packets(items[..n]) + was[offset..]
    modifies buf
    ensures AllReadable(items[..n + 1]) && end == |Packets(items[..n + 1])| <= |was|
    ensures buf[..] == Packets(items[..n + 1]) + was[end..]
  {
    hide Packet, Packets, Taken, Readable;
    PacketsNext(items, n);
    if items[n].Malformed? {
      return offset;
    }
    Spliced(Packets(items[..n]), Packet(items[n]), was);
    WritePacket(buf, offset, items[n]);
    end := offset + PACKET;
  }

  // Fills the buffer with the packets of the well-formed items.
  method SendJobPayload(items: Option<seq<Item>>, buf: array<Byte>) returns (size: nat, ok: bool)
    requires items.Some? ==> AllReadable(items.value) && buf.Length >= PACKET * |Taken(items.value)|
    modifies buf
    ensures ok <==> items.Some?
    ensures size == if items.Some? then |Packets(items.value)| else 0
    ensures buf[..] == if items.Some? then Packets(items.value) + old(buf[size..]) else old(buf[..])
  {
    hide Packet, Packets, Taken, Readable;
    if items.None? {
      return 0, false;
    }
    var all, offset := items.value, 0;
    ghost var was := buf[..];
    PacketsNone();
    assert all[..0] == [];
    for n := 0 to |all|
      invariant AllReadable(all[..n]) && offset == |Packets(all[..n])| <= |was| == buf.Length
      invariant buf[..] == Packets(all[..n]) + was[offset..]
    {
      offset := PutItem(all, n, buf, offset, was);
    }
    assert all[..|all|] == all;
    return offset, true;
  }

  // Overwriting what follows a prefix
  lemma Spliced(prefix: seq<Byte>, p: seq<Byte>, was: seq<Byte>)
    requires |prefix| + |p| <= |was|
    ensures var now := prefix + was[|prefix|..];
            now[..|prefix|] + p + now[|prefix| + |p|..] == prefix + p + was[|prefix| + |p|..]
  {
  }

  lemma PacketsNone()
    ensures Packets([]) == []
  {
  }

  lemma {:induction false} TakenGrows(items: seq<Item>, n: nat)
    requires n <= |items|
    ensures |Taken(items[..n])| <= |Taken(items)|
    decreases |items|
  {
    if n < |items| {
      var init := items[..|items| - 1];
      TakenGrows(init, n);
      assert init[..n] == items[..n];
    } else {
      assert items[..n] == items;
    }
  }

  lemma PacketsNext(items: seq<Item>, n: nat)
    requires n < |items| && AllReadable(items)
    ensures AllReadable(items[..n]) && AllReadable(items[..n + 1]) && Readable(items[n])
    ensures Packets(items[..n + 1]) == Packets(items[..n]) + if items[n].Item? then Packet(items[n]) else []
    ensures |Packets(items[..n + 1])| <= PACKET * |Taken(items)|
  {
    TakenGrows(items, n + 1);
    assert items[..n + 1][..n] == items[..n];
  }

  /* Reading */

  lemma JobsNone()
    ensures Whole([]) && JobsOf([]) == []
  {
  }

  lemma JobsNext(data: seq<Byte>, offset: nat)
    requires offset < |data| && Whole(data[offset..])
    ensures offset + PACKET <= |data| && Whole(data[offset + PACKET..])
    ensures JobsOf(data[offset..]) == [JobOf(data[offset..offset + PACKET])] + JobsOf(data[offset + PACKET..])
  {
    var rest := data[offset..];
    assert rest[..PACKET] == data[offset..offset + PACKET];
    assert rest[PACKET..] == data[offset + PACKET..];
  }

  class Device {
    var jobs: seq<Job>

    // A list that is not whole packets leaves the jobs as they are.
    method SetJobs(data: seq<Byte>)
      modifies this
      ensures jobs == if Whole(data) then JobsOf(data) else old(jobs)
    {
      hide JobOf, JobsOf, Whole;
      if !Whole(data) {
        return;
      }
      JobsNone();
      jobs := [];
      var offset, size := 0, |data|;
      assert data[0..] == data;
      while size > 0
        invariant offset >= 0 && size >= 0 && offset + size == |data| && Whole(data[offset..])
        invariant jobs + JobsOf(data[offset..]) == JobsOf(data)
      {
        JobsNext(data, offset);
        jobs := jobs + [JobOf(data[offset..offset + PACKET])];
        size := size - PACKET;
        offset := offset + PACKET;
      }
      assert data[offset..] == [];
    }

    // The answer to a sent job list: unless it is an error, what was sent becomes the device's jobs.
    method SendJobResponse(error: bool, sent: seq<Byte>)
      modifies this
      ensures jobs == if !error && Whole(sent) then JobsOf(sent) else old(jobs)
    {
      if error {
        return;
      }
      SetJobs(sent);
    }
  }

  /* Round trip */

  function Cut(s: seq<Byte>): seq<Byte> {
    if |s| < NAME then s else s[..NAME - 1]
  }

  // The job an item stands for, its numbers cut to a byte and its name to eleven characters
  function Meant(i: Item): Job
    requires i.Item?
  {
    Job(Time(i.begin.hour % 256, i.begin.minute % 256), Time(i.end.hour % 256, i.end.minute % 256),
        i.days % 256, i.priority % 256, Cut(Terminated(i.exec)), i.arg)
  }

  function AllMeant(items: seq<Item>): (jobs: seq<Job>)
    requires forall i :: i in items ==> i.Item?
  {
    seq(|items|, k requires 0 <= k < |items| => Meant(items[k]))
  }

  lemma {:induction false} TerminatedIs(memory: seq<Byte>)
    ensures var s := Terminated(memory);
            |s| <= |memory| && s == memory[..|s|] && 0 !in s && (|s| < |memory| ==> memory[|s|] == 0)
  {
    if memory != [] && memory[0] != 0 {
      TerminatedIs(memory[1..]);
      var n := |Terminated(memory[1..])|;
      assert memory[..n + 1] == [memory[0]] + memory[1..][..n];
    }
  }

  // What follows a terminator does not matter.
  lemma {:induction false} TerminatedCut(memory: seq<Byte>, n: nat)
    requires n <= |memory|
    ensures var s := Terminated(memory); Terminated(memory[..n] + [0]) == if |s| <= n then s else s[..n]
  {
    var t := memory[..n] + [0];
    if n > 0 && memory[0] != 0 {
      TerminatedCut(memory[1..], n - 1);
      assert t[1..] == memory[1..][..n - 1] + [0];
    }
  }

  lemma PacketRoundTrip(i: Item)
    requires i.Item? && Readable(i)
    ensures JobOf(Packet(i)) == Meant(i)
  {
    hide Bytes, Signed, Terminated;
    var p := Packet(i);
    SignedBytes(i.arg);
    assert p[6..10] == Bytes(i.arg);
    assert p[10..] == i.exec[..NAME - 1] + [0];
    TerminatedCut(i.exec, NAME - 1);
  }

  // Where each field of the packed structures lies: six single bytes, the argument with its lowest byte first, and
  // twelve characters of which the last is a terminator.
  lemma PacketLayout(i: Item)
    requires i.Item? && Readable(i)
    ensures var p := Packet(i);
            && p[0] == i.begin.hour % 256 && p[1] == i.begin.minute % 256
            && p[2] == i.end.hour % 256 && p[3] == i.end.minute % 256
            && p[4] == i.days % 256 && p[5] == i.priority % 256
            && (Little(p[6..10]) - i.arg) % U32 == 0
            && (forall j :: 0 <= j < NAME - 1 ==> p[10 + j] == i.exec[j]) && p[10 + NAME - 1] == 0
  {
    hide Bytes, Little, Signed, Unsigned;
    var p := Packet(i);
    assert p[6..10] == Bytes(i.arg);
    SignedBytes(i.arg);
    UnsignedLittle(p[6..10]);
    Opposite(i.arg, Unsigned(p[6..10]));
  }

  lemma Opposite(x: int, y: int)
    requires (x - y) % U32 == 0
    ensures (y - x) % U32 == 0
  {
    var k := (x - y) / U32;
    assert x - y == U32 * k && y - x == U32 * -k;
  }

  // The well-formed items, and no others
  lemma {:induction false} TakenExact(items: seq<Item>)
    ensures forall i :: i in Taken(items) <==> i in items && i.Item?
    ensures Malformed !in items ==> Taken(items) == items
  {
    if items != [] {
      var init, i := items[..|items| - 1], items[|items| - 1];
      assert items == init + [i];
      TakenExact(init);
    }
  }

  lemma {:induction false} TakenJoined(a: seq<Item>, b: seq<Item>)
    ensures Taken(a + b) == Taken(a) + Taken(b)
    decreases |b|
  {
    hide Taken;
    if b == [] {
      assert a + b == a;
      TakenNone();
    } else {
      var init, i := b[..|b| - 1], b[|b| - 1];
      TakenJoined(a, init);
      assert b == init + [i] && a + b == a + init + [i];
      TakenPushed(init, i);
      TakenPushed(a + init, i);
    }
  }

  lemma TakenNone()
    ensures Taken([]) == []
  {
  }

  lemma TakenPushed(items: seq<Item>, i: Item)
    ensures Taken(items + [i]) == Taken(items) + if i.Item? then [i] else []
  {
    assert (items + [i])[..|items|] == items;
  }

  lemma {:induction false} JobsPushed(data: seq<Byte>, p: seq<Byte>)
    requires Whole(data) && |p| == PACKET
    ensures Whole(data + p)
    ensures JobsOf(data + p) == JobsOf(data) + [JobOf(p)]
    decreases |data|
  {
    if data == [] {
      assert data + p == p && p[..PACKET] == p && p[PACKET..] == [];
    } else {
      JobsPushed(data[PACKET..], p);
      assert (data + p)[..PACKET] == data[..PACKET];
      assert (data + p)[PACKET..] == data[PACKET..] + p;
    }
  }

  // Reading back what was written gives the well-formed items in order.
  lemma {:induction false} RoundTrip(items: seq<Item>)
    requires AllReadable(items)
    ensures Whole(Packets(items))
    ensures JobsOf(Packets(items)) == AllMeant(Taken(items))
  {
    hide JobOf, Packet, Meant;
    if items != [] {
      var init, i := items[..|items| - 1], items[|items| - 1];
      RoundTrip(init);
      if i.Item? {
        PacketRoundTrip(i);
        JobsPushed(Packets(init), Packet(i));
        assert AllMeant(Taken(init) + [i]) == AllMeant(Taken(init)) + [Meant(i)];
      } else {
        assert Packets(init) + [] == Packets(init) && Taken(init) + [] == Taken(init);
      }
    }
  }

  // Numbers that fit a byte and names of at most eleven characters come back as they were.
  lemma MeantExact(i: Item)
    requires i.Item?
    ensures Meant(i) == Job(i.begin, i.end, i.days, i.priority, Terminated(i.exec), i.arg) <==>
            && i.begin.hour < 256 && i.begin.minute < 256 && i.end.hour < 256 && i.end.minute < 256
            && i.days < 256 && i.priority < 256 && |Terminated(i.exec)| < NAME
  {
  }

  // A sent list, once the device has taken it, is the device's list.
  method SendAndSet(items: seq<Item>, buf: array<Byte>, d: Device)
    requires AllReadable(items) && buf.Length >= PACKET * |Taken(items)|
    modifies buf, d
    ensures d.jobs == AllMeant(Taken(items))
  {
    var size, _ := SendJobPayload(Some(items), buf);
    RoundTrip(items);
    assert buf[..size] == Packets(items);
    d.SendJobResponse(false, buf[..size]);
  }
}
