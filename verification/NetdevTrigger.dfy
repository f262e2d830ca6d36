/** The network LED trigger of ugreen/ledtrig-netdev2.c: it holds references on up to two
    network devices across name stores, notifier events and deactivation. */
module NetdevTrigger {
  import opened Words

  type Dev = nat

  const IFNAMSIZ: nat := 16
  const EINVAL: int := 22
  const NETDEV_LED_LINK: nat := 0
  const NETDEV_LED_TX: nat := 1
  const NETDEV_LED_RX: nat := 2
  const NETDEV_LED_MODE_LINKUP: nat := 3
  const NETDEV_LED_DEBUG: nat := 4

  datatype Event = Up | Down | Change | Register | Unregister | ChangeName | OtherEvent

  /** Holds minus puts, by the trigger, on each device. */
  type Ledger = map<Dev, int>

  function Balance(l: Ledger, d: Dev): int {
    if d in l then l[d] else 0
  }

  function HoldDev(l: Ledger, d: Dev): Ledger {
    l[d := Balance(l, d) + 1]
  }

  /** dev_put ignores a null pointer. */
  function PutDev(l: Ledger, d: Option<Dev>): Ledger {
    if d.None? then l else l[d.value := Balance(l, d.value) - 1]
  }

  /** dev_get_by_name takes a reference on what it finds. */
  function GetDev(l: Ledger, found: Option<Dev>): Ledger {
    if found.None? then l else HoldDev(l, found.value)
  }

  /** `stat` is the bit mask dev_stat, `mode` the set of mode bits. */
  datatype Trigger = Trigger(dev0: Option<Dev>, dev1: Option<Dev>, stat: nat, mode: set<nat>, ledger: Ledger)

  predicate Bit(stat: nat, mask: nat)
    requires mask > 0
  {
    stat / mask % 2 == 1
  }

  type Carrier = Dev -> bool

  predicate LinkOk(d: Option<Dev>, carrier: Carrier) {
    d.Some? && carrier(d.value)
  }

  // ---------- device_name_store ----------

  /** What the lookups of "eth0", of "eth0" once more, and of "eth1" find. */
  datatype Lookups = Lookups(eth0: Option<Dev>, eth0Again: Option<Dev>, eth1: Option<Dev>)

  predicate Named(name: string) {
    name != "" && name != "\n" && name[0] != '\0'
  }

  function TrackEth0(t: Trigger, found: Option<Dev>): Trigger {
    var t1 := t.(ledger := PutDev(t.ledger, t.dev1), dev1 := None);
    var t2 := if Bit(t.stat, 0x01) then t1 else t1.(ledger := GetDev(t1.ledger, found), dev0 := found);
    t2.(stat := 0x01)
  }

  function TrackEth1(t: Trigger, found: Option<Dev>): Trigger {
    var t1 := t.(ledger := PutDev(t.ledger, t.dev0), dev0 := None);
    var t2 := if Bit(t.stat, 0x10) then t1 else t1.(ledger := GetDev(t1.ledger, found), dev1 := found);
    t2.(stat := 0x10)
  }

  function TrackBoth(t: Trigger, found0: Option<Dev>, found1: Option<Dev>): Trigger {
    var t1 := if t.dev0.None? then t.(ledger := GetDev(t.ledger, found0), dev0 := found0) else t;
    var t2 := if t1.dev1.None? then t1.(ledger := GetDev(t1.ledger, found1), dev1 := found1) else t1;
    t2.(stat := 0x11)
  }

  /** The prefix tests overlap: "eth01" passes the first and the third. */
  function Track(t: Trigger, name: string, found: Lookups): Trigger {
    var t1 := if "eth0" <= name then TrackEth0(t, found.eth0) else t;
    var t2 := if "eth1" <= name then TrackEth1(t1, found.eth1) else t1;
    if "eth01" <= name then TrackBoth(t2, found.eth0Again, found.eth1) else t2
  }

  function SetLink(t: Trigger, up: bool): Trigger {
    t.(mode := if up then t.mode + {NETDEV_LED_MODE_LINKUP} else t.mode - {NETDEV_LED_MODE_LINKUP})
  }

  function NameStore(t: Trigger, name: string, found: Lookups, carrier: Carrier): Trigger {
    if |name| >= IFNAMSIZ then t
    else
      var t1 := if Named(name) then Track(t, name, found) else t;
      SetLink(t1, LinkOk(t1.dev0, carrier) || LinkOk(t1.dev1, carrier))
  }

  // ---------- netdev_trig_notify ----------

  /** The device, the name it has now, and whether it is outside the initial name space, a
      bridge port or a VLAN. */
  datatype Subject = Subject(dev: Dev, name: string, ignored: bool)

  predicate Concerns(t: Trigger, evt: Event, s: Subject) {
    && evt != OtherEvent
    && (Some(s.dev) == t.dev0 || Some(s.dev) == t.dev1
        || ((evt == ChangeName || evt == Register) && (s.name == "eth0" || s.name == "eth1")))
    && !s.ignored
  }

  function Adopt(t: Trigger, s: Subject): Trigger {
    var t1 := if s.name == "eth0" && Bit(t.stat, 0x01) && t.dev0.None?
              then t.(ledger := HoldDev(t.ledger, s.dev), dev0 := Some(s.dev)) else t;
    if s.name == "eth1" && Bit(t1.stat, 0x10) && t1.dev1.None?
    then t1.(ledger := HoldDev(t1.ledger, s.dev), dev1 := Some(s.dev)) else t1
  }

  function Release(t: Trigger, s: Subject): Trigger {
    var t1 := if s.name == "eth0" then t.(ledger := PutDev(t.ledger, t.dev0), dev0 := None) else t;
    if s.name == "eth1" then t1.(ledger := PutDev(t1.ledger, t1.dev1), dev1 := None) else t1
  }

  function Notify(t: Trigger, evt: Event, s: Subject, carrier: Carrier): Trigger {
    if !Concerns(t, evt, s) then t
    else
      var alone := (s.name == "eth0" && t.dev1.None?) || (s.name == "eth1" && t.dev0.None?);
      var t1 := if alone then SetLink(t, false) else t;
      match evt
      case ChangeName => Adopt(t1, s)
      case Register => Adopt(t1, s)
      case Unregister => Release(t1, s)
      case Up => SetLink(t1, LinkOk(t1.dev0, carrier) || LinkOk(t1.dev1, carrier))
      case Change => SetLink(t1, LinkOk(t1.dev0, carrier) || LinkOk(t1.dev1, carrier))
      case _ => t1
  }

  // ---------- The other entry points ----------

  const FRESH: Trigger := Trigger(None, None, 0, {}, map[])

  predicate AttrBit(bit: nat) {
    bit == NETDEV_LED_LINK || bit == NETDEV_LED_TX || bit == NETDEV_LED_RX || bit == NETDEV_LED_DEBUG
  }

  datatype Parsed = Number(value: u64) | Bad(code: int)

  function AttrStore(t: Trigger, bit: nat, on: bool): Trigger {
    if !AttrBit(bit) then t else t.(mode := if on then t.mode + {bit} else t.mode - {bit})
  }

  function Deactivate(t: Trigger): Trigger {
    t.(ledger := PutDev(PutDev(t.ledger, t.dev0), t.dev1), dev0 := None, dev1 := None)
  }

  datatype Input =
    | Store(name: string, found: Lookups, carrier: Carrier)
    | Notice(evt: Event, subject: Subject, carrier: Carrier)
    | Attr(bit: nat, on: bool)

  function Handle(t: Trigger, i: Input): Trigger {
    match i
    case Store(name, found, carrier) => NameStore(t, name, found, carrier)
    case Notice(evt, s, carrier) => Notify(t, evt, s, carrier)
    case Attr(bit, on) => AttrStore(t, bit, on)
  }

  function Run(t: Trigger, inputs: seq<Input>): Trigger
    decreases |inputs|
  {
    if inputs == [] then t else Run(Handle(t, inputs[0]), inputs[1..])
  }

  // ---------- The ledger ----------

  function One(slot: Option<Dev>, d: Dev): int {
    if slot == Some(d) then 1 else 0
  }

  /** Each device is held once for every slot that names it. */
  ghost predicate Balanced(t: Trigger) {
    forall d: Dev :: Balance(t.ledger, d) == One(t.dev0, d) + One(t.dev1, d)
  }

  /** A slot is in use only while its bit is set, so a lookup never overwrites a held device. */
  predicate Flagged(t: Trigger) {
    && (t.dev0.Some? ==> Bit(t.stat, 0x01))
    && (t.dev1.Some? ==> Bit(t.stat, 0x10))
  }

  /** The link flag is up only while some slot is in use. */
  predicate LinkTracked(t: Trigger) {
    NETDEV_LED_MODE_LINKUP in t.mode ==> t.dev0.Some? || t.dev1.Some?
  }

  ghost predicate Inv(t: Trigger) {
    Balanced(t) && Flagged(t) && LinkTracked(t)
  }

  lemma GetAddsOne(l: Ledger, found: Option<Dev>, d: Dev)
    ensures Balance(GetDev(l, found), d) == Balance(l, d) + One(found, d)
  {
  }

  lemma PutTakesOne(l: Ledger, slot: Option<Dev>, d: Dev)
    ensures Balance(PutDev(l, slot), d) == Balance(l, d) - One(slot, d)
  {
  }

  lemma TrackEth0Keeps(t: Trigger, found: Option<Dev>)
    requires Balanced(t) && Flagged(t)
    ensures Balanced(TrackEth0(t, found)) && Flagged(TrackEth0(t, found))
  {
    assert Bit(0x01, 0x01);
    var l := PutDev(t.ledger, t.dev1);
    forall d: Dev ensures var t' := TrackEth0(t, found); Balance(t'.ledger, d) == One(t'.dev0, d) + One(t'.dev1, d) {
      assert Balance(t.ledger, d) == One(t.dev0, d) + One(t.dev1, d);
      PutTakesOne(t.ledger, t.dev1, d);
      GetAddsOne(l, found, d);
    }
  }

  lemma TrackEth1Keeps(t: Trigger, found: Option<Dev>)
    requires Balanced(t) && Flagged(t)
    ensures Balanced(TrackEth1(t, found)) && Flagged(TrackEth1(t, found))
  {
    assert Bit(0x10, 0x10);
    var l := PutDev(t.ledger, t.dev0);
    forall d: Dev ensures var t' := TrackEth1(t, found); Balance(t'.ledger, d) == One(t'.dev0, d) + One(t'.dev1, d) {
      assert Balance(t.ledger, d) == One(t.dev0, d) + One(t.dev1, d);
      PutTakesOne(t.ledger, t.dev0, d);
      GetAddsOne(l, found, d);
    }
  }

  lemma TrackBothKeeps(t: Trigger, found0: Option<Dev>, found1: Option<Dev>)
    requires Balanced(t) && Flagged(t)
    ensures Balanced(TrackBoth(t, found0, found1)) && Flagged(TrackBoth(t, found0, found1))
  {
    assert Bit(0x11, 0x01) && Bit(0x11, 0x10);
    var l := if t.dev0.None? then GetDev(t.ledger, found0) else t.ledger;
    forall d: Dev
      ensures var t' := TrackBoth(t, found0, found1); Balance(t'.ledger, d) == One(t'.dev0, d) + One(t'.dev1, d)
    {
      assert Balance(t.ledger, d) == One(t.dev0, d) + One(t.dev1, d);
      GetAddsOne(t.ledger, found0, d);
      GetAddsOne(l, found1, d);
    }
  }

  lemma TrackKeeps(t: Trigger, name: string, found: Lookups)
    requires Balanced(t) && Flagged(t)
    ensures Balanced(Track(t, name, found)) && Flagged(Track(t, name, found))
  {
    TrackEth0Keeps(t, found.eth0);
    var t1 := if "eth0" <= name then TrackEth0(t, found.eth0) else t;
    TrackEth1Keeps(t1, found.eth1);
    var t2 := if "eth1" <= name then TrackEth1(t1, found.eth1) else t1;
    TrackBothKeeps(t2, found.eth0Again, found.eth1);
  }

  lemma NoticeKeeps(t: Trigger, evt: Event, s: Subject, carrier: Carrier)
    requires Inv(t)
    ensures Inv(Notify(t, evt, s, carrier))
  {
    var t' := Notify(t, evt, s, carrier);
    forall d: Dev ensures Balance(t'.ledger, d) == One(t'.dev0, d) + One(t'.dev1, d) {
      assert Balance(t.ledger, d) == One(t.dev0, d) + One(t.dev1, d);
    }
  }

  lemma HandleKeeps(t: Trigger, i: Input)
    requires Inv(t)
    ensures Inv(Handle(t, i))
  {
    match i {
      case Store(name, found, carrier) =>
        if Named(name) {
          TrackKeeps(t, name, found);
        }
      case Notice(evt, s, carrier) => NoticeKeeps(t, evt, s, carrier);
      case Attr(bit, on) =>
    }
  }

  /** In every run of name stores, notifier events with any renaming, and attribute writes, the
      ledger balances, no held slot is overwritten, and the link flag implies a tracked device. */
  lemma {:induction false} RunKeeps(t: Trigger, inputs: seq<Input>)
    requires Inv(t)
    ensures Inv(Run(t, inputs))
    decreases |inputs|
  {
    if inputs == [] {
    } else {
      HandleKeeps(t, inputs[0]);
      RunKeeps(Handle(t, inputs[0]), inputs[1..]);
    }
  }

  /** From activation to deactivation every hold has been put, on every device, and no slot is
      left in use. */
  lemma NothingLeaks(inputs: seq<Input>, d: Dev)
    ensures var t := Deactivate(Run(FRESH, inputs));
            Balance(t.ledger, d) == 0 && t.dev0.None? && t.dev1.None?
  {
    RunKeeps(FRESH, inputs);
    var t := Run(FRESH, inputs);
    assert Balance(t.ledger, d) == One(t.dev0, d) + One(t.dev1, d);
  }

  /** The input presents the device as the one called `name`. */
  predicate Presents(i: Input, name: string, d: Dev) {
    match i
    case Store(_, found, _) =>
      if name == "eth0" then found.eth0 == Some(d) || found.eth0Again == Some(d)
      else name == "eth1" && found.eth1 == Some(d)
    case Notice(_, s, _) => s.dev == d && s.name == name
    case Attr(_, _) => false
  }

  /** A slot only ever holds a device that some input presented under that slot's name. */
  lemma {:induction false} SlotsHoldTheirOwn(t: Trigger, inputs: seq<Input>, d: Dev)
    ensures Run(t, inputs).dev0 == Some(d) ==>
              t.dev0 == Some(d) || exists k :: 0 <= k < |inputs| && Presents(inputs[k], "eth0", d)
    ensures Run(t, inputs).dev1 == Some(d) ==>
              t.dev1 == Some(d) || exists k :: 0 <= k < |inputs| && Presents(inputs[k], "eth1", d)
    decreases |inputs|
  {
    if inputs == [] {
    } else {
      var t', rest := Handle(t, inputs[0]), inputs[1..];
      OneInputPresents(t, inputs[0], d);
      SlotsHoldTheirOwn(t', rest, d);
      if k :| 0 <= k < |rest| && Presents(rest[k], "eth0", d) {
        assert Presents(inputs[k + 1], "eth0", d);
      }
      if k :| 0 <= k < |rest| && Presents(rest[k], "eth1", d) {
        assert Presents(inputs[k + 1], "eth1", d);
      }
    }
  }

  lemma OneInputPresents(t: Trigger, i: Input, d: Dev)
    ensures Handle(t, i).dev0 == Some(d) ==> t.dev0 == Some(d) || Presents(i, "eth0", d)
    ensures Handle(t, i).dev1 == Some(d) ==> t.dev1 == Some(d) || Presents(i, "eth1", d)
  {
  }

  /** After a name store the link flag says exactly whether a tracked device has a carrier, and
      a name that starts with "eth0" or "eth1" but not "eth01" leaves the other slot empty. */
  lemma StoreTracks(t: Trigger, name: string, found: Lookups, carrier: Carrier)
    requires |name| < IFNAMSIZ
    ensures var t' := NameStore(t, name, found, carrier);
            && (NETDEV_LED_MODE_LINKUP in t'.mode <==> LinkOk(t'.dev0, carrier) || LinkOk(t'.dev1, carrier))
            && ("eth0" <= name && !("eth01" <= name) ==> t'.dev1.None? && t'.stat == 0x01)
            && ("eth1" <= name ==> t'.dev0.None? && t'.stat == 0x10)
  {
    if "eth1" <= name {
      assert name[3] == '1';
    }
    if "eth0" <= name || "eth01" <= name {
      assert name[3] == '0';
    }
  }

  /** What a slot holds after a lookup that is made only if the slot's bit was clear. */
  predicate Filled(before: Option<Dev>, known: bool, found: Option<Dev>, after: Option<Dev>) {
    after == if known then before else found
  }

  /** What a store of each of the three kinds of name tracks, by the device name's first letters and
      what the lookups find.  "eth0" and "eth1" each let go of the other slot and look their device
      up unless they are known already; "eth01" passes the test for "eth0" first, looks eth0 up
      again if that found nothing, and eth1 always, since the other slot is empty by then. */
  lemma StoreFills(t: Trigger, name: string, found: Lookups, carrier: Carrier)
    requires 5 <= |name| < 16
    ensures var t' := NameStore(t, name, found, carrier);
            && (name[..4] == "eth0" && name[4] != '1' ==>
                  && Filled(t.dev0, t.stat % 2 == 1, found.eth0, t'.dev0) && t'.dev1.None? && t'.stat == 1)
            && (name[..4] == "eth1" ==>
                  && Filled(t.dev1, t.stat / 16 % 2 == 1, found.eth1, t'.dev1) && t'.dev0.None? && t'.stat == 16)
            && (name[..5] == "eth01" ==>
                  && Filled(t.dev0, t.stat % 2 == 1 && t.dev0.Some?,
                            if t.stat % 2 == 0 && found.eth0.Some? then found.eth0 else found.eth0Again, t'.dev0)
                  && t'.dev1 == found.eth1 && t'.stat == 17)
            && (name[..4] != "eth0" && name[..4] != "eth1" ==>
                  t'.dev0 == t.dev0 && t'.dev1 == t.dev1 && t'.stat == t.stat && t'.ledger == t.ledger)
            && t'.mode - {NETDEV_LED_MODE_LINKUP} == t.mode - {NETDEV_LED_MODE_LINKUP}
  {
    assert "eth0" <= name <==> name[..4] == "eth0";
    assert "eth1" <= name <==> name[..4] == "eth1";
    assert "eth01" <= name <==> name[..5] == "eth01";
    assert name[..5] == "eth01" <==> name[..4] == "eth0" && name[4] == '1' by {
      assert name[..5] == name[..4] + [name[4]];
      assert "eth01" == "eth0" + ['1'];
    }
  }

  /** Names too short for a trailing newline track nothing else than longer ones. */
  lemma ShortNames(t: Trigger, found: Lookups, carrier: Carrier)
    ensures var t' := NameStore(t, "eth0", found, carrier);
            Filled(t.dev0, t.stat % 2 == 1, found.eth0, t'.dev0) && t'.dev1.None? && t'.stat == 1
    ensures var t' := NameStore(t, "eth1", found, carrier);
            Filled(t.dev1, t.stat / 16 % 2 == 1, found.eth1, t'.dev1) && t'.dev0.None? && t'.stat == 16
    ensures var t' := NameStore(t, "\n", found, carrier); t'.dev0 == t.dev0 && t'.dev1 == t.dev1 && t'.stat == t.stat
  {
    assert "eth0"[3] == '0' && "eth1"[3] == '1' && "\n"[0] == '\n';
    assert "eth0" <= "eth0" && "eth1" <= "eth1";
    assert !("eth1" <= "eth0") && !("eth0" <= "eth1") && !("eth01" <= "eth0") && !("eth01" <= "eth1");
  }

  /** A long name changes nothing. */
  lemma LongNames(t: Trigger, name: string, found: Lookups, carrier: Carrier)
    requires |name| >= 16
    ensures NameStore(t, name, found, carrier) == t
  {
  }

  /** Right after activation, with the device there and its carrier up, a store of its name tracks
      and holds it, and the link flag is up. */
  lemma FreshStoreTracks(d: Dev, first: bool, carrier: Carrier)
    requires carrier(d)
    ensures var t' := NameStore(FRESH, if first then "eth0" else "eth1", Lookups(Some(d), Some(d), Some(d)), carrier);
            && (if first then t'.dev0 == Some(d) && t'.dev1.None? else t'.dev1 == Some(d) && t'.dev0.None?)
            && Balance(t'.ledger, d) == 1 && NETDEV_LED_MODE_LINKUP in t'.mode
  {
    ShortNames(FRESH, Lookups(Some(d), Some(d), Some(d)), carrier);
    TrackKeeps(FRESH, if first then "eth0" else "eth1", Lookups(Some(d), Some(d), Some(d)));
    StoreTracks(FRESH, if first then "eth0" else "eth1", Lookups(Some(d), Some(d), Some(d)), carrier);
  }

  /** An event is heard unless its device is ignored: about a tracked device, or a registration or
      renaming that brings one of the two names. */
  predicate Heard(t: Trigger, evt: Event, s: Subject) {
    && !s.ignored && !evt.OtherEvent?
    && (|| t.dev0 == Some(s.dev) || t.dev1 == Some(s.dev)
        || ((evt.Register? || evt.ChangeName?) && (s.name == "eth0" || s.name == "eth1")))
  }

  /** What each heard event does to slots and link flag; one that is not heard does nothing.  A
      registration or renaming fills the empty slot of the device's name if its bit is set, an
      unregistration empties the slot of that name, and going up or changing makes the link flag
      exact; anything else about the only tracked device takes the flag down. */
  lemma NoticeDoes(t: Trigger, evt: Event, s: Subject, carrier: Carrier)
    ensures var t' := Notify(t, evt, s, carrier);
            if !Heard(t, evt, s) then t' == t
            else
              && t'.stat == t.stat && t'.mode - {NETDEV_LED_MODE_LINKUP} == t.mode - {NETDEV_LED_MODE_LINKUP}
              && t'.dev0 == (if evt.Unregister? && s.name == "eth0" then None
                             else if (evt.Register? || evt.ChangeName?) && s.name == "eth0"
                                     && t.stat % 2 == 1 && t.dev0.None? then Some(s.dev)
                             else t.dev0)
              && t'.dev1 == (if evt.Unregister? && s.name == "eth1" then None
                             else if (evt.Register? || evt.ChangeName?) && s.name == "eth1"
                                     && t.stat / 16 % 2 == 1 && t.dev1.None? then Some(s.dev)
                             else t.dev1)
              && (NETDEV_LED_MODE_LINKUP in t'.mode <==>
                    if evt.Up? || evt.Change? then
                      (t.dev0.Some? && carrier(t.dev0.value)) || (t.dev1.Some? && carrier(t.dev1.value))
                    else
                      && NETDEV_LED_MODE_LINKUP in t.mode
                      && !(s.name == "eth0" && t.dev1.None?) && !(s.name == "eth1" && t.dev0.None?))
  {
  }

  /** An attribute write sets or clears its own mode bit, one of 0, 1, 2 and 4, and no other. */
  lemma AttrDoes(t: Trigger, bit: nat, on: bool, other: nat)
    ensures var t' := AttrStore(t, bit, on);
            && t' == t.(mode := t'.mode)
            && (other in t'.mode <==>
                  if other == bit && (bit <= 2 || bit == 4) then on else other in t.mode)
  {
  }

  /** A device that goes away is not held afterwards if and only if it was not held before, or
      the event is heard and the device still has the name of every slot it is in.  One that
      was renamed while held stays held, and so does one that is a bridge port, a VLAN or
      outside the initial name space by then. */
  lemma UnregisterReleases(t: Trigger, s: Subject, carrier: Carrier)
    requires Inv(t)
    ensures Balance(Notify(t, Unregister, s, carrier).ledger, s.dev) == 0 <==>
              || (t.dev0 != Some(s.dev) && t.dev1 != Some(s.dev))
              || (!s.ignored
                  && (t.dev0 == Some(s.dev) ==> s.name == "eth0")
                  && (t.dev1 == Some(s.dev) ==> s.name == "eth1"))
  {
    NoticeKeeps(t, Unregister, s, carrier);
    var t' := Notify(t, Unregister, s, carrier);
    assert Balance(t.ledger, s.dev) == One(t.dev0, s.dev) + One(t.dev1, s.dev);
    assert Balance(t'.ledger, s.dev) == One(t'.dev0, s.dev) + One(t'.dev1, s.dev);
  }

  /** Two runs from activation after which a device is gone and still held: it joined a bridge,
      which a name store does not ask about, or it was renamed. */
  lemma GoneButHeld(d: Dev, carrier: Carrier, bridged: bool)
    ensures var name := if bridged then "eth0" else "lan0";
            var inputs := [Store("eth0", Lookups(Some(d), Some(d), None), carrier),
                           Notice(Unregister, Subject(d, name, bridged), carrier)];
            Balance(Run(FRESH, inputs).ledger, d) == 1
  {
    var name := if bridged then "eth0" else "lan0";
    var store := Store("eth0", Lookups(Some(d), Some(d), None), carrier);
    var notice := Notice(Unregister, Subject(d, name, bridged), carrier);
    var t := Handle(FRESH, store);
    assert "eth0"[3] == '0' && "eth1"[3] == '1';
    assert !("eth1" <= "eth0") && !("eth01" <= "eth0") && "eth0" <= "eth0";
    assert !bridged ==> name[0] == 'l';
    assert [store, notice][1..] == [notice] && [notice][1..] == [];
    assert Run(t, [notice]) == Run(Handle(t, notice), []);
  }

  // ---------- The trigger in place ----------

  class Kernel {
    var ledger: Ledger

    constructor ()
      ensures ledger == map[]
    {
      ledger := map[];
    }

    method DevHold(d: Dev)
      modifies this
      ensures ledger == HoldDev(old(ledger), d)
    {
      ledger := ledger[d := Balance(ledger, d) + 1];
    }

    method DevPut(d: Option<Dev>)
      modifies this
      ensures ledger == PutDev(old(ledger), d)
    {
      if d.Some? {
        ledger := ledger[d.value := Balance(ledger, d.value) - 1];
      }
    }

    method DevGetByName(found: Option<Dev>) returns (d: Option<Dev>)
      modifies this
      ensures d == found && ledger == GetDev(old(ledger), found)
    {
      if found.Some? {
        DevHold(found.value);
      }
      d := found;
    }
  }

  class TriggerData {
    const kernel: Kernel
    var netDev0: Option<Dev>
    var netDev1: Option<Dev>
    var devStat: nat
    var mode: set<nat>

    function State(): Trigger
      reads this, kernel
    {
      Trigger(netDev0, netDev1, devStat, mode, kernel.ledger)
    }

    /** netdev_trig_activate. */
    constructor (kernel: Kernel)
      ensures this.kernel == kernel && State() == FRESH.(ledger := kernel.ledger)
    {
      this.kernel := kernel;
      netDev0, netDev1, devStat, mode := None, None, 0, {};
    }

    method DeviceNameStore(name: string, found: Lookups, carrier: Carrier) returns (ret: int)
      modifies this, kernel
      ensures State() == NameStore(old(State()), name, found, carrier)
      ensures ret == if |name| >= IFNAMSIZ then -EINVAL else |name|
    {
      if |name| >= IFNAMSIZ {
        return -EINVAL;
      }
      if Named(name) {
        TrackDevices(name, found);
      }
      mode := mode - {NETDEV_LED_MODE_LINKUP};
      if netDev0.Some? && carrier(netDev0.value) {
        mode := mode + {NETDEV_LED_MODE_LINKUP};
      }
      if netDev1.Some? && carrier(netDev1.value) {
        mode := mode + {NETDEV_LED_MODE_LINKUP};
      }
      ret := |name|;
    }

    method TrackDevices(name: string, found: Lookups)
      modifies this, kernel
      ensures State() == Track(old(State()), name, found)
    {
      if "eth0" <= name {
        if netDev1.Some? {
          kernel.DevPut(netDev1);
          netDev1 := None;
        }
        if !Bit(devStat, 0x01) {
          netDev0 := kernel.DevGetByName(found.eth0);
        }
        devStat := 0x01;
      }
      if "eth1" <= name {
        if netDev0.Some? {
          kernel.DevPut(netDev0);
          netDev0 := None;
        }
        if !Bit(devStat, 0x10) {
          netDev1 := kernel.DevGetByName(found.eth1);
        }
        devStat := 0x10;
      }
      if "eth01" <= name {
        if netDev0.None? {
          netDev0 := kernel.DevGetByName(found.eth0Again);
        }
        if netDev1.None? {
          netDev1 := kernel.DevGetByName(found.eth1);
        }
        devStat := 0x11;
      }
    }

    method NetdevTrigNotify(evt: Event, s: Subject, carrier: Carrier)
      modifies this, kernel
      ensures State() == Notify(old(State()), evt, s, carrier)
    {
      if !Concerns(State(), evt, s) {
        return;
      }
      if (s.name == "eth0" && netDev1.None?) || (s.name == "eth1" && netDev0.None?) {
        mode := mode - {NETDEV_LED_MODE_LINKUP};
      }
      match evt {
        case ChangeName => AdoptDevice(s);
        case Register => AdoptDevice(s);
        case Unregister =>
          if s.name == "eth0" {
            kernel.DevPut(netDev0);
            netDev0 := None;
          }
          if s.name == "eth1" {
            kernel.DevPut(netDev1);
            netDev1 := None;
          }
        case Up => FollowCarrier(carrier);
        case Change => FollowCarrier(carrier);
        case _ =>
      }
    }

    method AdoptDevice(s: Subject)
      modifies this, kernel
      ensures State() == Adopt(old(State()), s)
    {
      if s.name == "eth0" && Bit(devStat, 0x01) && netDev0.None? {
        kernel.DevHold(s.dev);
        netDev0 := Some(s.dev);
      }
      if s.name == "eth1" && Bit(devStat, 0x10) && netDev1.None? {
        kernel.DevHold(s.dev);
        netDev1 := Some(s.dev);
      }
    }

    method FollowCarrier(carrier: Carrier)
      modifies this
      ensures State() == SetLink(old(State()), LinkOk(netDev0, carrier) || LinkOk(netDev1, carrier))
    {
      if netDev0.Some? && carrier(netDev0.value) {
        mode := mode + {NETDEV_LED_MODE_LINKUP};
      } else if netDev1.Some? && carrier(netDev1.value) {
        mode := mode + {NETDEV_LED_MODE_LINKUP};
      } else {
        mode := mode - {NETDEV_LED_MODE_LINKUP};
      }
    }

    /** `parsed` is the number written, or the error of parsing it. */
    method NetdevLedAttrStore(bit: nat, parsed: Parsed, size: nat) returns (ret: int)
      modifies this
      ensures State() == if parsed.Number? then AttrStore(old(State()), bit, parsed.value != 0) else old(State())
      ensures ret == if parsed.Bad? then parsed.code else if AttrBit(bit) then size else -EINVAL
    {
      if parsed.Bad? {
        return parsed.code;
      }
      if !AttrBit(bit) {
        return -EINVAL;
      }
      mode := if parsed.value != 0 then mode + {bit} else mode - {bit};
      ret := size;
    }

    method NetdevTrigDeactivate()
      modifies this, kernel
      ensures State() == Deactivate(old(State()))
    {
      if netDev0.Some? {
        kernel.DevPut(netDev0);
      }
      if netDev1.Some? {
        kernel.DevPut(netDev1);
      }
      netDev0, netDev1 := None, None;
    }
  }
}
