/**
 * The node registration half of discovery: which inverter and battery nodes a site's
 * inventory adds, under which addresses, and the battery serials handed to the site
 * node for its storage requests.
 */
module Registration {
  import opened Payload
  import opened Channels
  import opened Discovery
  import opened BatteryNode
  import opened SiteNode
  import opened InverterNode
  import opened FixedPoint

  /** The addresses discovery derives from a list of inventory batteries. */
  function Addresses(inv: seq<InventoryBattery>): set<string>
    decreases |inv|
  {
    if inv == [] then {} else Addresses(inv[..|inv| - 1]) + {NodeAddress(inv[|inv| - 1].serial)}
  }

  /** Each battery's address is among those derived from its list. */
  lemma {:induction false} AddressOfEntry(inv: seq<InventoryBattery>, i: int)
    requires 0 <= i < |inv|
    ensures NodeAddress(inv[i].serial) in Addresses(inv)
    decreases |inv|
  {
    if i < |inv| - 1 {
      var p := inv[..|inv| - 1];
      assert p[i] == inv[i];
      AddressOfEntry(p, i);
    }
  }

  /** Each derived address belongs to some battery of the list. */
  lemma {:induction false} EntryOfAddress(inv: seq<InventoryBattery>, a: string) returns (i: int)
    requires a in Addresses(inv)
    ensures 0 <= i < |inv| && NodeAddress(inv[i].serial) == a
    decreases |inv|
  {
    var p := inv[..|inv| - 1];
    if a in Addresses(p) {
      i := EntryOfAddress(p, a);
      assert p[i] == inv[i];
    } else {
      i := |inv| - 1;
    }
  }

  /** One more inventory entry adds exactly its own address. */
  lemma AddressesStep(inv: seq<InventoryBattery>, i: int)
    requires 0 <= i < |inv|
    ensures Addresses(inv[..i + 1]) == Addresses(inv[..i]) + {NodeAddress(inv[i].serial)}
  {
    assert inv[..i + 1][..i] == inv[..i];
  }

  /**
   * The serials discovery appends to the site's `batteries`: those of the inventory
   * batteries whose address has no node yet when the loop reaches them.
   */
  function Appended(known: set<string>, inv: seq<InventoryBattery>): seq<string>
    decreases |inv|
  {
    if inv == [] then []
    else
      var p := inv[..|inv| - 1];
      var a := NodeAddress(inv[|inv| - 1].serial);
      if a in known || a in Addresses(p) then Appended(known, p)
      else Appended(known, p) + [inv[|inv| - 1].serial]
  }

  /** One more inventory entry appends its serial exactly when its address is new. */
  lemma AppendedStep(known: set<string>, inv: seq<InventoryBattery>, i: int)
    requires 0 <= i < |inv|
    ensures var a := NodeAddress(inv[i].serial);
      Appended(known, inv[..i + 1])
        == Appended(known, inv[..i]) + (if a in known || a in Addresses(inv[..i]) then [] else [inv[i].serial])
  {
    assert inv[..i + 1][..i] == inv[..i];
  }

  /** What one pass of the battery loop does to the known addresses and the appended serials. */
  lemma RegisterStep(known: set<string>, inv: seq<InventoryBattery>, i: int, keys: set<string>)
    requires 0 <= i < |inv|
    requires keys == known + Addresses(inv[..i])
    ensures known + Addresses(inv[..i + 1]) == keys + {NodeAddress(inv[i].serial)}
    ensures Appended(known, inv[..i + 1])
      == Appended(known, inv[..i]) + (if NodeAddress(inv[i].serial) in keys then [] else [inv[i].serial])
  {
    AddressesStep(inv, i);
    AppendedStep(known, inv, i);
  }

  /** Each appended serial comes from the inventory and gets a node under an address that had none before. */
  lemma {:induction false} AppendedNew(known: set<string>, inv: seq<InventoryBattery>)
    ensures forall j :: 0 <= j < |Appended(known, inv)| ==>
      NodeAddress(Appended(known, inv)[j]) !in known && NodeAddress(Appended(known, inv)[j]) in Addresses(inv)
    decreases |inv|
  {
    if inv != [] {
      var p := inv[..|inv| - 1];
      AppendedNew(known, p);
      var rp := Appended(known, p);
      var r := Appended(known, inv);
      forall j | 0 <= j < |r|
        ensures NodeAddress(r[j]) !in known && NodeAddress(r[j]) in Addresses(inv)
      {
        if j < |rp| {
          assert r[j] == rp[j];
        } else {
          assert r[j] == inv[|inv| - 1].serial;
        }
      }
    }
  }

  /** No two appended serials share an address: each address gets one battery node. */
  lemma {:induction false} AppendedDistinct(known: set<string>, inv: seq<InventoryBattery>)
    ensures forall j, k :: 0 <= j < k < |Appended(known, inv)| ==>
      NodeAddress(Appended(known, inv)[j]) != NodeAddress(Appended(known, inv)[k])
    decreases |inv|
  {
    if inv != [] {
      var p := inv[..|inv| - 1];
      AppendedDistinct(known, p);
      AppendedNew(known, p);
      var rp := Appended(known, p);
      var r := Appended(known, inv);
      if r != rp {
        forall j, k | 0 <= j < k < |r|
          ensures NodeAddress(r[j]) != NodeAddress(r[k])
        {
          assert r[j] == rp[j];
          if k < |rp| {
            assert r[k] == rp[k];
          }
        }
      }
    }
  }

  /** Some serial of rs gets address a. */
  predicate Covered(rs: seq<string>, a: string) {
    exists j :: 0 <= j < |rs| && NodeAddress(rs[j]) == a
  }

  /** The nodes already there and the appended serials cover every address of the inventory. */
  lemma {:induction false} AppendedCovers(known: set<string>, inv: seq<InventoryBattery>, a: string)
    requires a in Addresses(inv)
    ensures a in known || Covered(Appended(known, inv), a)
    decreases |inv|
  {
    var p := inv[..|inv| - 1];
    var last := inv[|inv| - 1];
    var rp := Appended(known, p);
    var r := Appended(known, inv);
    var isNew := !(NodeAddress(last.serial) in known || NodeAddress(last.serial) in Addresses(p));
    if a !in known {
      if a in Addresses(p) {
        AppendedCovers(known, p, a);
        var j :| 0 <= j < |rp| && NodeAddress(rp[j]) == a;
        assert r[j] == rp[j];
      } else {
        assert isNew && r[|rp|] == last.serial;
      }
    }
  }

  /** Discovery's battery loop: a node for each new address, its serial appended to the site. */
  method RegisterBatteries(site: Site, nodes: map<string, Battery>, inv: seq<InventoryBattery>)
    returns (nodes': map<string, Battery>)
    requires site.Valid() && Registry(nodes)
    modifies site
    ensures site.Valid() && Registry(nodes')
    ensures nodes'.Keys == nodes.Keys + Addresses(inv)
    ensures forall a :: a in nodes ==> nodes'[a] == nodes[a]
    ensures forall a :: a in nodes' && a !in nodes ==> fresh(nodes'[a]) && nodes'[a].address == a
    ensures site.batteries == old(site.batteries) + Appended(nodes.Keys, inv)
    ensures site.State() == old(site.State())
  {
    nodes' := nodes;
    var i := 0;
    while i < |inv|
      invariant 0 <= i <= |inv|
      invariant site.Valid() && Registry(nodes')
      invariant nodes'.Keys == nodes.Keys + Addresses(inv[..i])
      invariant forall a :: a in nodes ==> nodes'[a] == nodes[a]
      invariant forall a :: a in nodes' && a !in nodes ==> fresh(nodes'[a]) && nodes'[a].address == a
      invariant site.batteries == old(site.batteries) + Appended(nodes.Keys, inv[..i])
      invariant site.State() == old(site.State())
    {
      nodes' := RegisterBattery(site, nodes', inv, i, nodes.Keys, old(site.batteries));
      i := i + 1;
    }
    assert inv[..i] == inv;
  }

  /**
   * One pass of the battery loop, over entry i: a node and a site serial for a new
   * address, nothing otherwise.
   */
  method RegisterBattery(site: Site, nodes: map<string, Battery>, inv: seq<InventoryBattery>, i: int,
                         ghost known: set<string>, ghost base: seq<string>)
    returns (nodes': map<string, Battery>)
    requires 0 <= i < |inv|
    requires site.Valid() && Registry(nodes)
    requires nodes.Keys == known + Addresses(inv[..i])
    requires site.batteries == base + Appended(known, inv[..i])
    modifies site
    ensures site.Valid() && Registry(nodes')
    ensures site.State() == old(site.State())
    ensures nodes'.Keys == known + Addresses(inv[..i + 1])
    ensures forall x :: x in nodes ==> x in nodes' && nodes'[x] == nodes[x]
    ensures forall x :: x in nodes' && x !in nodes ==> fresh(nodes'[x]) && nodes'[x].address == x
    ensures site.batteries == base + Appended(known, inv[..i + 1])
  {
    if NodeAddress(inv[i].serial) !in nodes {
      nodes' := RegisterNewBattery(site, nodes, inv, i, known, base);
    } else {
      RegisterStep(known, inv, i, nodes.Keys);
      nodes' := nodes;
    }
  }

  /** The pass of the battery loop that adds a node for entry i. */
  method RegisterNewBattery(site: Site, nodes: map<string, Battery>, inv: seq<InventoryBattery>, i: int,
                            ghost known: set<string>, ghost base: seq<string>)
    returns (nodes': map<string, Battery>)
    requires 0 <= i < |inv| && NodeAddress(inv[i].serial) !in nodes
    requires site.Valid() && Registry(nodes)
    requires nodes.Keys == known + Addresses(inv[..i])
    requires site.batteries == base + Appended(known, inv[..i])
    modifies site
    ensures site.Valid() && Registry(nodes')
    ensures site.State() == old(site.State())
    ensures nodes'.Keys == known + Addresses(inv[..i + 1])
    ensures forall x :: x in nodes ==> x in nodes' && nodes'[x] == nodes[x]
    ensures forall x :: x in nodes' && x !in nodes ==> fresh(nodes'[x]) && nodes'[x].address == x
    ensures site.batteries == base + Appended(known, inv[..i + 1])
  {
    AppendedPush(known, inv, i, nodes.Keys, base, site.batteries);
    var b := inv[i];
    var a := NodeAddress(b.serial);
    site.AddBattery(b.serial);
    nodes' := AddBatteryNode(nodes, b);
    UpdateKeeps(nodes, a, nodes'[a]);
  }

  /** The pass that adds entry i's address appends its serial, and no other. */
  lemma AppendedPush(known: set<string>, inv: seq<InventoryBattery>, i: int, keys: set<string>,
                     base: seq<string>, rs: seq<string>)
    requires 0 <= i < |inv|
    requires keys == known + Addresses(inv[..i]) && NodeAddress(inv[i].serial) !in keys
    requires rs == base + Appended(known, inv[..i])
    ensures keys + {NodeAddress(inv[i].serial)} == known + Addresses(inv[..i + 1])
    ensures rs + [inv[i].serial] == base + Appended(known, inv[..i + 1])
  {
    RegisterStep(known, inv, i, keys);
    assert rs + [inv[i].serial] == base + (Appended(known, inv[..i]) + [inv[i].serial]);
  }

  /** `addNode(SEBattery(...))` for a battery whose address has no node. */
  method AddBatteryNode(nodes: map<string, Battery>, b: InventoryBattery) returns (nodes': map<string, Battery>)
    requires Registry(nodes) && NodeAddress(b.serial) !in nodes
    ensures Registry(nodes') && nodes'.Keys == nodes.Keys + {NodeAddress(b.serial)}
    ensures nodes' == nodes[NodeAddress(b.serial) := nodes'[NodeAddress(b.serial)]]
    ensures fresh(nodes'[NodeAddress(b.serial)])
    ensures nodes'[NodeAddress(b.serial)].address == NodeAddress(b.serial)
  {
    var a := NodeAddress(b.serial);
    var node := new Battery(a, b.serial, b);
    assert forall x :: x in nodes ==> nodes[x] != node;
    nodes' := nodes[a := node];
  }

  /**
   * Discovery and the fan-out derive addresses alike: when every serial the site
   * asks about has a node under its address, a storage response about those serials
   * reaches a node for each reporting battery, and the fan-out completes unless a
   * telemetry list is unusable.
   */
  lemma RegisteredBatteriesReached(views: map<string, Drivers>, serials: seq<string>, es: seq<StorageBattery>)
    requires BatteryViews(views)
    requires forall j :: 0 <= j < |serials| ==> NodeAddress(serials[j]) in views
    requires forall k :: 0 <= k < |es| ==> es[k].serialNumber in serials && !EntryRaises(es[k])
    ensures FanOut(views, es).ok
  {
    FanOutOk(views, es);
  }

  /** The addresses of the inventory inverters whose model is supported. */
  function SupportedAddresses(inv: seq<InventoryInverter>): set<string>
    decreases |inv|
  {
    if inv == [] then {}
    else
      var v := inv[|inv| - 1];
      SupportedAddresses(inv[..|inv| - 1]) + (if SupportedInverter(v.model) then {NodeAddress(v.serial)} else {})
  }

  /** Each inverter of a supported model has its address among the supported ones. */
  lemma {:induction false} SupportedAddressOfEntry(inv: seq<InventoryInverter>, i: int)
    requires 0 <= i < |inv| && SupportedInverter(inv[i].model)
    ensures NodeAddress(inv[i].serial) in SupportedAddresses(inv)
    decreases |inv|
  {
    if i < |inv| - 1 {
      var p := inv[..|inv| - 1];
      assert p[i] == inv[i];
      SupportedAddressOfEntry(p, i);
    }
  }

  /** Each supported address belongs to some inverter of a supported model. */
  lemma {:induction false} EntryOfSupportedAddress(inv: seq<InventoryInverter>, a: string) returns (i: int)
    requires a in SupportedAddresses(inv)
    ensures 0 <= i < |inv| && SupportedInverter(inv[i].model) && NodeAddress(inv[i].serial) == a
    decreases |inv|
  {
    var p := inv[..|inv| - 1];
    if a in SupportedAddresses(p) {
      i := EntryOfSupportedAddress(p, a);
      assert p[i] == inv[i];
    } else {
      i := |inv| - 1;
    }
  }

  /**
   * The inverter nodes discovery adds, address to serial: an inverter of a supported
   * model whose address has no node yet when the loop reaches it. An unsupported
   * model is only logged, so it does not claim its address.
   */
  function AddedInverters(known: set<string>, inv: seq<InventoryInverter>): map<string, string>
    decreases |inv|
  {
    if inv == [] then map[]
    else
      var m := AddedInverters(known, inv[..|inv| - 1]);
      var v := inv[|inv| - 1];
      var a := NodeAddress(v.serial);
      if a in known || a in m || !SupportedInverter(v.model) then m else m[a := v.serial]
  }

  /**
   * Exactly the supported addresses that had no node get one, and the serial kept
   * for an address is that of an inventory inverter of a supported model with that
   * address.
   */
  lemma {:induction false} AddedInvertersExactly(known: set<string>, inv: seq<InventoryInverter>)
    ensures AddedInverters(known, inv).Keys == SupportedAddresses(inv) - known
    ensures forall a :: a in AddedInverters(known, inv) ==>
      exists i :: (0 <= i < |inv| && SupportedInverter(inv[i].model)
        && inv[i].serial == AddedInverters(known, inv)[a] && NodeAddress(inv[i].serial) == a)
    decreases |inv|
  {
    if inv != [] {
      var p := inv[..|inv| - 1];
      AddedInvertersExactly(known, p);
      var m := AddedInverters(known, p);
      var r := AddedInverters(known, inv);
      forall a | a in r
        ensures exists i :: (0 <= i < |inv| && SupportedInverter(inv[i].model)
          && inv[i].serial == r[a] && NodeAddress(inv[i].serial) == a)
      {
        if a in m && r[a] == m[a] {
          var i :| 0 <= i < |p| && SupportedInverter(p[i].model) && p[i].serial == m[a] && NodeAddress(p[i].serial) == a;
          assert inv[i] == p[i];
        } else {
          var i := |inv| - 1;
          assert SupportedInverter(inv[i].model) && NodeAddress(inv[i].serial) == a && inv[i].serial == r[a];
        }
      }
    }
  }

  /** One more inventory entry adds a node exactly when its model is supported and its address is new. */
  lemma AddedInvertersStep(known: set<string>, inv: seq<InventoryInverter>, i: int)
    requires 0 <= i < |inv|
    ensures var v := inv[i];
      var m := AddedInverters(known, inv[..i]);
      var a := NodeAddress(v.serial);
      AddedInverters(known, inv[..i + 1])
        == if a in known || a in m || !SupportedInverter(v.model) then m else m[a := v.serial]
  {
    assert inv[..i + 1][..i] == inv[..i];
  }

  /** What one pass of the inverter loop does to the added inverters. */
  lemma InverterStep(known: set<string>, inv: seq<InventoryInverter>, i: int, keys: set<string>)
    requires 0 <= i < |inv|
    requires keys == known + AddedInverters(known, inv[..i]).Keys
    ensures var a := NodeAddress(inv[i].serial);
      var m := AddedInverters(known, inv[..i]);
      var m' := AddedInverters(known, inv[..i + 1]);
      if a in keys || !SupportedInverter(inv[i].model) then m' == m
      else a !in known && m' == m[a := inv[i].serial] && known + m'.Keys == keys + {a}
  {
    AddedInvertersStep(known, inv, i);
  }

  /** Adding a new key keeps every entry already there. */
  lemma UpdateKeeps<K, V>(m: map<K, V>, k: K, v: V)
    requires k !in m
    ensures forall x :: x in m ==> x in m[k := v] && m[k := v][x] == m[x]
  {
  }

  /** Every inverter node is well formed. */
  ghost predicate InverterRegistry(nodes: map<string, Inverter>)
    reads nodes.Values
  {
    forall a :: a in nodes ==> nodes[a].Valid()
  }

  /** The serial number each inverter node polls, by address. */
  function Serials(nodes: map<string, Inverter>): (r: map<string, string>)
    ensures r.Keys == nodes.Keys
  {
    map a | a in nodes :: nodes[a].serial
  }

  /** A pass that adds entry i extends the serials the nodes poll by that entry's serial. */
  lemma SerialsStepNew(s0: map<string, string>, inv: seq<InventoryInverter>, i: int, s: map<string, string>)
    requires 0 <= i < |inv|
    requires s == s0 + AddedInverters(s0.Keys, inv[..i])
    requires NodeAddress(inv[i].serial) !in s && SupportedInverter(inv[i].model)
    ensures s[NodeAddress(inv[i].serial) := inv[i].serial] == s0 + AddedInverters(s0.Keys, inv[..i + 1])
  {
    InverterStep(s0.Keys, inv, i, s.Keys);
  }

  /** A pass that adds nothing leaves the serials as they were. */
  lemma SerialsStepKept(s0: map<string, string>, inv: seq<InventoryInverter>, i: int, s: map<string, string>)
    requires 0 <= i < |inv|
    requires s == s0 + AddedInverters(s0.Keys, inv[..i])
    requires NodeAddress(inv[i].serial) in s || !SupportedInverter(inv[i].model)
    ensures s == s0 + AddedInverters(s0.Keys, inv[..i + 1])
  {
    InverterStep(s0.Keys, inv, i, s.Keys);
  }

  /** Discovery's inverter loop: a node for each new address of a supported model. */
  method RegisterInverters(nodes: map<string, Inverter>, inv: seq<InventoryInverter>, lastDate: int, rate: Fixed)
    returns (nodes': map<string, Inverter>)
    requires InverterRegistry(nodes)
    ensures InverterRegistry(nodes')
    ensures nodes'.Keys == nodes.Keys + AddedInverters(nodes.Keys, inv).Keys
    ensures Serials(nodes') == Serials(nodes) + AddedInverters(nodes.Keys, inv)
    ensures forall a :: a in nodes ==> nodes'[a] == nodes[a]
    ensures forall a :: a in nodes' && a !in nodes ==>
      fresh(nodes'[a]) && nodes'[a].address == a && nodes'[a].lastDate == lastDate && nodes'[a].rate == rate
  {
    nodes' := nodes;
    var i := 0;
    while i < |inv|
      invariant 0 <= i <= |inv|
      invariant InverterRegistry(nodes')
      invariant Serials(nodes') == Serials(nodes) + AddedInverters(nodes.Keys, inv[..i])
      invariant forall a :: a in nodes ==> nodes'[a] == nodes[a]
      invariant forall a :: a in nodes' && a !in nodes ==>
        fresh(nodes'[a]) && nodes'[a].address == a && nodes'[a].lastDate == lastDate && nodes'[a].rate == rate
    {
      nodes' := RegisterInverter(nodes, nodes', inv, i, lastDate, rate);
      i := i + 1;
    }
    assert inv[..i] == inv;
  }

  /**
   * One pass of the inverter loop, over entry i: a node for a new address of a
   * supported model, nothing otherwise.
   */
  method RegisterInverter(ghost nodes0: map<string, Inverter>, nodes: map<string, Inverter>,
                          inv: seq<InventoryInverter>, i: int, lastDate: int, rate: Fixed)
    returns (nodes': map<string, Inverter>)
    requires 0 <= i < |inv|
    requires InverterRegistry(nodes)
    requires Serials(nodes) == Serials(nodes0) + AddedInverters(nodes0.Keys, inv[..i])
    ensures InverterRegistry(nodes')
    ensures Serials(nodes') == Serials(nodes0) + AddedInverters(nodes0.Keys, inv[..i + 1])
    ensures forall a :: a in nodes ==> a in nodes' && nodes'[a] == nodes[a]
    ensures forall a :: a in nodes' && a !in nodes ==>
      fresh(nodes'[a]) && nodes'[a].address == a && nodes'[a].lastDate == lastDate && nodes'[a].rate == rate
  {
    var v := inv[i];
    if NodeAddress(v.serial) !in nodes && SupportedInverter(v.model) {
      nodes' := RegisterNewInverter(nodes0, nodes, inv, i, lastDate, rate);
    } else {
      nodes' := nodes;
      SerialsStepKept(Serials(nodes0), inv, i, Serials(nodes));
    }
  }

  /** The pass of the inverter loop that adds a node for entry i. */
  method RegisterNewInverter(ghost nodes0: map<string, Inverter>, nodes: map<string, Inverter>,
                             inv: seq<InventoryInverter>, i: int, lastDate: int, rate: Fixed)
    returns (nodes': map<string, Inverter>)
    requires 0 <= i < |inv|
    requires NodeAddress(inv[i].serial) !in nodes && SupportedInverter(inv[i].model)
    requires InverterRegistry(nodes)
    requires Serials(nodes) == Serials(nodes0) + AddedInverters(nodes0.Keys, inv[..i])
    ensures InverterRegistry(nodes')
    ensures Serials(nodes') == Serials(nodes0) + AddedInverters(nodes0.Keys, inv[..i + 1])
    ensures forall a :: a in nodes ==> a in nodes' && nodes'[a] == nodes[a]
    ensures forall a :: a in nodes' && a !in nodes ==>
      fresh(nodes'[a]) && nodes'[a].address == a && nodes'[a].lastDate == lastDate && nodes'[a].rate == rate
  {
    nodes' := AddInverterNode(nodes, inv[i], lastDate, rate);
    UpdateKeeps(nodes, NodeAddress(inv[i].serial), nodes'[NodeAddress(inv[i].serial)]);
    SerialsStepNew(Serials(nodes0), inv, i, Serials(nodes));
  }

  /** `addNode(SEInverter(...))` for an inverter whose address has no node. */
  method AddInverterNode(nodes: map<string, Inverter>, v: InventoryInverter, lastDate: int, rate: Fixed)
    returns (nodes': map<string, Inverter>)
    requires InverterRegistry(nodes) && NodeAddress(v.serial) !in nodes
    ensures InverterRegistry(nodes') && NodeAddress(v.serial) in nodes'
    ensures nodes' == nodes[NodeAddress(v.serial) := nodes'[NodeAddress(v.serial)]]
    ensures Serials(nodes') == Serials(nodes)[NodeAddress(v.serial) := v.serial]
    ensures var node := nodes'[NodeAddress(v.serial)];
      fresh(node) && node.address == NodeAddress(v.serial) && node.serial == v.serial
      && node.lastDate == lastDate && node.rate == rate
  {
    var a := NodeAddress(v.serial);
    var node := new Inverter(a, v.serial, lastDate, rate);
    nodes' := nodes[a := node];
  }
}
