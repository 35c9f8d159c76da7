/** The machine-history query `SQL_GET_MACHINE`: the tables it reads, its
    common table expressions, and the tree it aggregates for one machine
    (machine, its maintenance tickets, the spare parts each ticket used, and
    the stock rows of each part). Tables are sequences of rows; NULL is
    `None`; `json_agg` over no rows is NULL, otherwise the multiset of its
    values (`json_agg(DISTINCT ...)` the set), element order not modelled. */
module DivaSql {
  import opened Results
  import opened Relational

  // ---------------------------------------------------------------------------
  // The tables read. Primary keys are non-null integers, foreign keys may be NULL.

  datatype Machine = Machine(id: int, plantName: string, designation: string)

  datatype MaintenanceTicket = MaintenanceTicket(
    id: int, ticketNumber: string, openingDate: string, damageDescription: string,
    cause: string, measureTaken: string, machineId: Option<int>)

  datatype SparePartMovement = SparePartMovement(
    maintenanceTicketId: Option<int>, sparePartId: Option<int>, quantity: int, movementDate: string)

  datatype SparePart = SparePart(id: int, designation: string, manufacturer: string, supplier: string)

  datatype SparePartStock = SparePartStock(
    sparePartId: Option<int>, plantName: string, currentStock: int, unitMeasure: string)

  datatype Database = Database(
    machines: seq<Machine>, tickets: seq<MaintenanceTicket>, movements: seq<SparePartMovement>,
    spareParts: seq<SparePart>, stock: seq<SparePartStock>)

  // ---------------------------------------------------------------------------
  // The tree the query builds

  datatype StockLevel = StockLevel(plantName: string, currentStock: int, unitMeasure: string)

  datatype SparePartUsage = SparePartUsage(
    partId: Option<int>, partName: string, manufacturer: string, supplier: string,
    quantityUsed: int, movementDate: string, currentStock: Option<multiset<StockLevel>>)

  datatype TicketView = TicketView(
    ticketId: int, ticketNumber: string, openingDate: string, damageDescription: string,
    cause: string, measureTaken: string, sparePartsUsed: Option<multiset<SparePartUsage>>)

  datatype MachineHistory = MachineHistory(
    machineId: int, plantName: string, machineDesignation: string,
    maintenanceTickets: Option<set<TicketView>>)

  /** The machine id written into the common table expressions, in place of
      the bound parameter. */
  const FixedMachineId: int := 1

  /** `a = b` in a WHERE or ON clause: a NULL operand never matches. */
  predicate SqlEq(a: Option<int>, b: Option<int>)
  {
    a.Some? && a == b
  }

  /** `json_agg(x)`: NULL over no rows, otherwise every row's value. */
  function JsonAgg<T>(rows: seq<T>): Option<multiset<T>>
  {
    if rows == [] then None else Some(multiset(rows))
  }

  /** `json_agg(DISTINCT x)`: NULL over no rows, otherwise the distinct values. */
  function JsonAggDistinct<T(==)>(rows: seq<T>): Option<set<T>>
  {
    if rows == [] then None else Some(set x | x in rows)
  }

  /** `json_agg` is NULL exactly over no rows, and otherwise holds each row's
      value as often as the rows hold it. */
  lemma JsonAggMeaning<T>(rows: seq<T>)
    ensures JsonAgg(rows).None? <==> rows == []
    ensures forall x :: (JsonAgg(rows).Some? && x in JsonAgg(rows).value) <==> x in rows
    ensures JsonAgg(rows).Some? ==> |JsonAgg(rows).value| == |rows|
  {
  }

  /** `json_agg(DISTINCT ...)` is NULL exactly over no rows, and otherwise
      holds each value of the rows once. */
  lemma JsonAggDistinctMeaning<T>(rows: seq<T>)
    ensures JsonAggDistinct(rows).None? <==> rows == []
    ensures forall x :: (JsonAggDistinct(rows).Some? && x in JsonAggDistinct(rows).value) <==> x in rows
  {
  }

  /** The number of elements of an aggregate; NULL counts as none. */
  function AggSize<T>(agg: Option<multiset<T>>): nat
  {
    if agg.None? then 0 else |agg.value|
  }

  // ---------------------------------------------------------------------------
  // Common table expressions

  /** CTE `machine_tickets`: the tickets whose machine_id is the fixed id. */
  function MachineTickets(db: Database): seq<MaintenanceTicket>
  {
    Filter(db.tickets, (t: MaintenanceTicket) => SqlEq(t.machineId, Some(FixedMachineId)))
  }

  /** `maintenance_ticket_id IN (SELECT id FROM maintenance_ticket WHERE
      machine_id = 1)`; the subquery applies the condition of `machine_tickets`. */
  predicate OfFixedMachineTicket(db: Database, ticketId: Option<int>)
  {
    ticketId.Some? && ticketId.value in Map(MachineTickets(db), (t: MaintenanceTicket) => t.id)
  }

  /** A row of CTE `ticket_spare_parts`. */
  datatype TicketSparePart = TicketSparePart(
    maintenanceTicketId: Option<int>, sparePartId: Option<int>, partsUsed: int,
    movementDate: string, partName: string, manufacturer: string, supplier: string)

  /** `ON spm.spare_part_id = sp.id`. */
  predicate MovesPart(mv: SparePartMovement, sp: SparePart)
  {
    SqlEq(mv.sparePartId, Some(sp.id))
  }

  function PartRow(mv: SparePartMovement, sp: SparePart): TicketSparePart
  {
    TicketSparePart(mv.maintenanceTicketId, mv.sparePartId, mv.quantity, mv.movementDate,
                    sp.designation, sp.manufacturer, sp.supplier)
  }

  /** CTE `ticket_spare_parts`: movements joined to their spare part, kept
      when the movement's ticket belongs to the fixed machine. */
  function TicketSpareParts(db: Database): seq<TicketSparePart>
  {
    Filter(InnerJoin(db.movements, db.spareParts, MovesPart, PartRow),
           (row: TicketSparePart) => OfFixedMachineTicket(db, row.maintenanceTicketId))
  }

  /** A row of CTE `plant_stock`. */
  datatype PlantStockRow = PlantStockRow(
    sparePartId: Option<int>, currentStock: int, unitMeasure: string,
    partName: string, manufacturer: string, supplier: string)

  /** `ON sps.spare_part_id = sp.id`. */
  predicate StocksPart(s: SparePartStock, sp: SparePart)
  {
    SqlEq(s.sparePartId, Some(sp.id))
  }

  /** `ON sps.plant_name = m.plant_name`. */
  predicate InPlantOf(stocked: (SparePartStock, SparePart), m: Machine)
  {
    stocked.0.plantName == m.plantName
  }

  function Stocked(s: SparePartStock, sp: SparePart): (SparePartStock, SparePart)
  {
    (s, sp)
  }

  function Placed(stocked: (SparePartStock, SparePart), m: Machine): (SparePartStock, SparePart, Machine)
  {
    (stocked.0, stocked.1, m)
  }

  /** `FROM spare_part_stock sps JOIN spare_part sp ... JOIN machine m ...`. */
  function PlacedStock(db: Database): seq<(SparePartStock, SparePart, Machine)>
  {
    InnerJoin(InnerJoin(db.stock, db.spareParts, StocksPart, Stocked), db.machines, InPlantOf, Placed)
  }

  /** `WHERE m.id = 1`. */
  predicate AtFixedMachine(t: (SparePartStock, SparePart, Machine))
  {
    t.2.id == FixedMachineId
  }

  function PlantStockRowOf(t: (SparePartStock, SparePart, Machine)): PlantStockRow
  {
    PlantStockRow(t.0.sparePartId, t.0.currentStock, t.0.unitMeasure, t.1.designation, t.1.manufacturer, t.1.supplier)
  }

  /** CTE `plant_stock`: the stock of every part in the fixed machine's plant.
      The main query never refers to it. */
  function PlantStock(db: Database): seq<PlantStockRow>
  {
    Map(Filter(PlacedStock(db), AtFixedMachine), PlantStockRowOf)
  }

  // ---------------------------------------------------------------------------
  // The nested subqueries

  function StockLevelOf(s: SparePartStock): StockLevel
  {
    StockLevel(s.plantName, s.currentStock, s.unitMeasure)
  }

  /** The stock levels of a part: `FROM spare_part_stock stock WHERE
      stock.spare_part_id = partId`, with no condition on the plant. */
  function StockLevels(db: Database, partId: Option<int>): seq<StockLevel>
  {
    Map(Filter(db.stock, (s: SparePartStock) => SqlEq(s.sparePartId, partId)), StockLevelOf)
  }

  /** `current_stock`. */
  function CurrentStock(db: Database, partId: Option<int>): Option<multiset<StockLevel>>
  {
    JsonAgg(StockLevels(db, partId))
  }

  function UsageOf(db: Database, row: TicketSparePart): SparePartUsage
  {
    SparePartUsage(row.sparePartId, row.partName, row.manufacturer, row.supplier,
                   row.partsUsed, row.movementDate, CurrentStock(db, row.sparePartId))
  }

  /** `FROM ticket_spare_parts tsp WHERE tsp.maintenance_ticket_id = ticketId`. */
  function TicketPartRows(db: Database, ticketId: int): seq<TicketSparePart>
  {
    Filter(TicketSpareParts(db), (row: TicketSparePart) => SqlEq(row.maintenanceTicketId, Some(ticketId)))
  }

  /** The usage objects of a ticket, one per `ticket_spare_parts` row of the ticket. */
  function Usages(db: Database, ticketId: int): seq<SparePartUsage>
  {
    Map(TicketPartRows(db, ticketId), (row: TicketSparePart) => UsageOf(db, row))
  }

  /** `spare_parts_used`. */
  function SparePartsUsed(db: Database, ticketId: int): Option<multiset<SparePartUsage>>
  {
    JsonAgg(Usages(db, ticketId))
  }

  function TicketObject(db: Database, mt: MaintenanceTicket): TicketView
  {
    TicketView(mt.id, mt.ticketNumber, mt.openingDate, mt.damageDescription, mt.cause,
               mt.measureTaken, SparePartsUsed(db, mt.id))
  }

  // ---------------------------------------------------------------------------
  // The main query

  /** `ON m.id = mt.machine_id`. */
  predicate TicketOf(m: Machine, mt: MaintenanceTicket)
  {
    SqlEq(Some(m.id), mt.machineId)
  }

  /** `FROM machine m LEFT JOIN machine_tickets mt ... WHERE m.id = machineId`. */
  function MachineRows(db: Database, machineId: int): seq<(Machine, Option<MaintenanceTicket>)>
  {
    Filter(LeftJoin(db.machines, MachineTickets(db), TicketOf), (r: (Machine, Option<MaintenanceTicket>)) => r.0.id == machineId)
  }

  /** `GROUP BY m.id, m.plant_name, m.designation`: the distinct machine rows selected. */
  function Groups(db: Database, machineId: int): seq<Machine>
  {
    Distinct(Map(MachineRows(db, machineId), (r: (Machine, Option<MaintenanceTicket>)) => r.0))
  }

  /** The joined rows that fall into group `g`. */
  function GroupRows(db: Database, machineId: int, g: Machine): seq<(Machine, Option<MaintenanceTicket>)>
  {
    Filter(MachineRows(db, machineId), (r: (Machine, Option<MaintenanceTicket>)) => r.0 == g)
  }

  /** The ticket objects of group `g`, one per non-null joined ticket. */
  function GroupTicketObjects(db: Database, machineId: int, g: Machine): seq<TicketView>
  {
    Map(NonNull(GroupRows(db, machineId, g)), (mt: MaintenanceTicket) => TicketObject(db, mt))
  }

  /** The output row of one group: the machine's columns and the distinct
      ticket objects of its non-null tickets. */
  function GroupRow(db: Database, machineId: int, g: Machine): MachineHistory
  {
    MachineHistory(g.id, g.plantName, g.designation, JsonAggDistinct(GroupTicketObjects(db, machineId, g)))
  }

  /** `SQL_GET_MACHINE` with `%(machine_id)s` bound to `machineId`. */
  function Query(db: Database, machineId: int): seq<MachineHistory>
  {
    Map(Groups(db, machineId), (g: Machine) => GroupRow(db, machineId, g))
  }

  /** `cursor.fetchone()`: the first row, or None when there is none. */
  function FetchOne<T>(rows: seq<T>): Option<T>
  {
    if rows == [] then None else Some(rows[0])
  }

  /** The machine lookup: the query executed with the requested id, one row fetched. */
  function FetchMachine(db: Database, machineId: int): Option<MachineHistory>
  {
    FetchOne(Query(db, machineId))
  }

  // ---------------------------------------------------------------------------
  // What the query returns

  /** A joined row is a machine of the requested id with one of its tickets
      among the fixed machine's, or with NULL when it has none there. */
  lemma MachineRowsMeaning(db: Database, machineId: int, m: Machine, t: Option<MaintenanceTicket>)
    ensures (m, t) in MachineRows(db, machineId) <==>
      && m in db.machines && m.id == machineId
      && (t.Some? ==> t.value in MachineTickets(db) && TicketOf(m, t.value))
      && (t.None? ==> forall mt :: mt in MachineTickets(db) ==> !TicketOf(m, mt))
  {
  }

  /** The groups are exactly the machine rows that have the requested id. */
  lemma GroupsAreMachineRows(db: Database, machineId: int)
    ensures forall g :: g in Groups(db, machineId) <==> g in db.machines && g.id == machineId
  {
    var rows := MachineRows(db, machineId);
    forall g ensures g in Groups(db, machineId) <==> g in db.machines && g.id == machineId {
      MapMembership(rows, (r: (Machine, Option<MaintenanceTicket>)) => r.0, g);
      if g in Groups(db, machineId) {
        var r :| r in rows && g == r.0;
        MachineRowsMeaning(db, machineId, r.0, r.1);
      }
      if g in db.machines && g.id == machineId {
        if mt :| mt in MachineTickets(db) && TicketOf(g, mt) {
          MachineRowsMeaning(db, machineId, g, Some(mt));
        } else {
          MachineRowsMeaning(db, machineId, g, None);
        }
      }
    }
  }

  /** The non-null tickets of a group are the tickets of the fixed machine,
      and only when the group's machine is the fixed machine. */
  lemma GroupTickets(db: Database, machineId: int, g: Machine)
    requires g in db.machines && g.id == machineId
    ensures forall mt :: mt in NonNull(GroupRows(db, machineId, g)) <==> machineId == FixedMachineId && mt in MachineTickets(db)
  {
    var rows := GroupRows(db, machineId, g);
    forall mt ensures mt in NonNull(rows) <==> machineId == FixedMachineId && mt in MachineTickets(db) {
      MachineRowsMeaning(db, machineId, g, Some(mt));
      if mt in NonNull(rows) {
        var a :| (a, Some(mt)) in rows;
        MachineRowsMeaning(db, machineId, a, Some(mt));
      }
    }
  }

  /** The root of a returned row. */
  function Root(h: MachineHistory): Machine
  {
    Machine(h.machineId, h.plantName, h.machineDesignation)
  }

  /** Row `i` of the result is built from group `i`. */
  lemma QueryFollowsGroups(db: Database, machineId: int)
    ensures |Query(db, machineId)| == |Groups(db, machineId)|
    ensures forall i :: 0 <= i < |Groups(db, machineId)| ==> Root(Query(db, machineId)[i]) == Groups(db, machineId)[i]
  {
    var groups := Groups(db, machineId);
    forall i | 0 <= i < |groups| ensures Root(Query(db, machineId)[i]) == groups[i] {
      assert Query(db, machineId)[i] == GroupRow(db, machineId, groups[i]);
    }
  }

  /** The query returns one row per distinct machine row with the requested
      id, its root columns copied from that machine row, and no row twice. */
  lemma QueryRoots(db: Database, machineId: int)
    ensures forall h :: h in Query(db, machineId) ==> Root(h) in db.machines && h.machineId == machineId
    ensures forall m :: m in db.machines && m.id == machineId ==> exists h :: h in Query(db, machineId) && Root(h) == m
    ensures forall i, j :: 0 <= i < j < |Query(db, machineId)| ==> Root(Query(db, machineId)[i]) != Root(Query(db, machineId)[j])
  {
    GroupsAreMachineRows(db, machineId);
    QueryFollowsGroups(db, machineId);
    var groups := Groups(db, machineId);
    var q := Query(db, machineId);
    forall h | h in q ensures Root(h) in db.machines && h.machineId == machineId {
      var i :| 0 <= i < |q| && q[i] == h;
      assert Root(h) == groups[i];
    }
    forall m | m in db.machines && m.id == machineId ensures exists h :: h in q && Root(h) == m {
      var i :| 0 <= i < |groups| && groups[i] == m;
      assert Root(q[i]) == m;
    }
    forall i, j | 0 <= i < j < |q| ensures Root(q[i]) != Root(q[j]) {
      assert Root(q[i]) == groups[i] && Root(q[j]) == groups[j];
    }
  }

  /** With no machine row of that id the query returns no row and the fetch
      yields None; otherwise it yields a row. */
  lemma NoMachineNoRow(db: Database, machineId: int)
    ensures Query(db, machineId) == [] <==> forall m :: m in db.machines ==> m.id != machineId
    ensures FetchMachine(db, machineId).None? <==> forall m :: m in db.machines ==> m.id != machineId
  {
    QueryRoots(db, machineId);
    if Query(db, machineId) != [] {
      assert Query(db, machineId)[0] in Query(db, machineId);
    }
  }

  /** When machine ids are unique and the machine exists, the query returns
      exactly one row, the one fetched, rooted at that machine. */
  lemma OneRowPerMachine(db: Database, m: Machine)
    requires KeyedBy(db.machines, (x: Machine) => x.id)
    requires m in db.machines
    ensures |Query(db, m.id)| == 1
    ensures FetchMachine(db, m.id) == Some(Query(db, m.id)[0])
    ensures Root(Query(db, m.id)[0]) == m
  {
    QueryRoots(db, m.id);
    var q := Query(db, m.id);
    var h :| h in q && Root(h) == m;
    forall i | 0 <= i < |q| ensures Root(q[i]) == m {
      var k :| 0 <= k < |db.machines| && db.machines[k] == Root(q[i]);
      var l :| 0 <= l < |db.machines| && db.machines[l] == m;
      assert k == l;
    }
    assert |q| > 1 ==> Root(q[0]) == Root(q[1]);
  }

  /** The ticket objects of group `g` are those of the fixed machine's tickets. */
  lemma TicketObjectsOfGroup(db: Database, machineId: int, g: Machine)
    requires g in db.machines && g.id == machineId
    ensures forall tv :: tv in GroupTicketObjects(db, machineId, g) <==>
      && machineId == FixedMachineId
      && exists mt :: mt in db.tickets && mt.machineId == Some(FixedMachineId) && tv == TicketObject(db, mt)
  {
    GroupTickets(db, machineId, g);
    var present := NonNull(GroupRows(db, machineId, g));
    forall tv ensures tv in GroupTicketObjects(db, machineId, g) <==>
      (machineId == FixedMachineId
       && exists mt :: mt in db.tickets && mt.machineId == Some(FixedMachineId) && tv == TicketObject(db, mt))
    {
      MapMembership(present, (mt: MaintenanceTicket) => TicketObject(db, mt), tv);
    }
  }

  /** The tickets of the row built for group `g`. */
  lemma GroupRowTickets(db: Database, machineId: int, g: Machine)
    requires g in db.machines && g.id == machineId
    ensures GroupRow(db, machineId, g).maintenanceTickets.None? <==>
      machineId != FixedMachineId || forall mt :: mt in db.tickets ==> mt.machineId != Some(FixedMachineId)
    ensures forall tv :: (GroupRow(db, machineId, g).maintenanceTickets.Some? && tv in GroupRow(db, machineId, g).maintenanceTickets.value) <==>
      && machineId == FixedMachineId
      && exists mt :: mt in db.tickets && mt.machineId == Some(FixedMachineId) && tv == TicketObject(db, mt)
  {
    TicketObjectsOfGroup(db, machineId, g);
    var objects := GroupTicketObjects(db, machineId, g);
    JsonAggDistinctMeaning(objects);
    assert objects != [] ==> objects[0] in objects;
    if machineId == FixedMachineId && exists mt :: mt in db.tickets && mt.machineId == Some(FixedMachineId) {
      var mt :| mt in db.tickets && mt.machineId == Some(FixedMachineId);
      assert TicketObject(db, mt) in objects;
    }
  }

  /** A returned row's tickets: NULL unless the requested id is the fixed id
      and that machine has tickets; otherwise one ticket object per ticket of
      the fixed machine. */
  lemma RowTickets(db: Database, machineId: int, h: MachineHistory)
    requires h in Query(db, machineId)
    ensures h.maintenanceTickets.None? <==>
      machineId != FixedMachineId || forall mt :: mt in db.tickets ==> mt.machineId != Some(FixedMachineId)
    ensures forall tv :: (h.maintenanceTickets.Some? && tv in h.maintenanceTickets.value) <==>
      && machineId == FixedMachineId
      && exists mt :: mt in db.tickets && mt.machineId == Some(FixedMachineId) && tv == TicketObject(db, mt)
  {
    GroupsAreMachineRows(db, machineId);
    QueryFollowsGroups(db, machineId);
    var groups := Groups(db, machineId);
    var i :| 0 <= i < |Query(db, machineId)| && Query(db, machineId)[i] == h;
    assert h == GroupRow(db, machineId, groups[i]);
    GroupRowTickets(db, machineId, groups[i]);
  }

  /** Whatever machine is requested, its tickets are only ever those of the
      fixed machine: for any other id the row's tickets are NULL. */
  lemma OtherMachinesHaveNoTickets(db: Database, machineId: int)
    requires machineId != FixedMachineId
    ensures forall h :: h in Query(db, machineId) ==> h.maintenanceTickets == None
  {
    forall h | h in Query(db, machineId) ensures h.maintenanceTickets == None {
      RowTickets(db, machineId, h);
    }
  }

  /** Unique ticket ids stay unique among the fixed machine's tickets. */
  lemma MachineTicketsKeyed(db: Database)
    requires KeyedBy(db.tickets, (t: MaintenanceTicket) => t.id)
    ensures KeyedBy(MachineTickets(db), (t: MaintenanceTicket) => t.id)
  {
    FilterKeepsKey(db.tickets, (t: MaintenanceTicket) => SqlEq(t.machineId, Some(FixedMachineId)), (t: MaintenanceTicket) => t.id);
  }

  /** With unique ticket ids, the tickets of group `g` of the fixed machine
      give as many distinct ticket objects as that machine has tickets. */
  lemma GroupTicketCount(db: Database, g: Machine)
    requires KeyedBy(db.tickets, (t: MaintenanceTicket) => t.id)
    requires g in db.machines && g.id == FixedMachineId
    ensures |set x | x in GroupTicketObjects(db, FixedMachineId, g)| == |MachineTickets(db)|
  {
    GroupTickets(db, FixedMachineId, g);
    MachineTicketsKeyed(db);
    var mts := MachineTickets(db);
    var present := NonNull(GroupRows(db, FixedMachineId, g));
    var toObject := (mt: MaintenanceTicket) => TicketObject(db, mt);
    MapImage(present, toObject);
    ImageSameMembers(present, mts, toObject);
    ImageSize(mts, (t: MaintenanceTicket) => t.id, toObject);
  }

  /** With unique ticket ids, the fixed machine's row holds one distinct
      ticket object per ticket of that machine: DISTINCT merges nothing. */
  lemma TicketCount(db: Database, h: MachineHistory)
    requires KeyedBy(db.tickets, (t: MaintenanceTicket) => t.id)
    requires h in Query(db, FixedMachineId)
    ensures h.maintenanceTickets.Some? ==> |h.maintenanceTickets.value| == |MachineTickets(db)|
  {
    GroupsAreMachineRows(db, FixedMachineId);
    QueryFollowsGroups(db, FixedMachineId);
    var groups := Groups(db, FixedMachineId);
    var i :| 0 <= i < |Query(db, FixedMachineId)| && Query(db, FixedMachineId)[i] == h;
    assert h == GroupRow(db, FixedMachineId, groups[i]);
    GroupTicketCount(db, groups[i]);
  }

  /** With unique machine and ticket ids, fetching the fixed machine yields
      its row, holding one ticket object per ticket of that machine, and NULL
      only when it has none. */
  lemma FixedMachineRow(db: Database, m: Machine)
    requires KeyedBy(db.machines, (x: Machine) => x.id)
    requires KeyedBy(db.tickets, (t: MaintenanceTicket) => t.id)
    requires m in db.machines && m.id == FixedMachineId
    ensures FetchMachine(db, FixedMachineId).Some?
    ensures Root(FetchMachine(db, FixedMachineId).value) == m
    ensures FetchMachine(db, FixedMachineId).value.maintenanceTickets.None? <==> MachineTickets(db) == []
    ensures FetchMachine(db, FixedMachineId).value.maintenanceTickets.Some? ==>
      |FetchMachine(db, FixedMachineId).value.maintenanceTickets.value| == |MachineTickets(db)|
  {
    OneRowPerMachine(db, m);
    var h := Query(db, FixedMachineId)[0];
    RowTickets(db, FixedMachineId, h);
    TicketCount(db, h);
    var mts := MachineTickets(db);
    assert mts != [] ==> mts[0] in mts;
  }

  // ---------------------------------------------------------------------------
  // What a ticket's spare_parts_used holds

  /** A ticket id that belongs to a ticket of the fixed machine. */
  predicate FixedMachineTicketId(db: Database, ticketId: int)
  {
    exists t :: t in db.tickets && t.machineId == Some(FixedMachineId) && t.id == ticketId
  }

  /** The IN subquery accepts exactly the non-null ids of the fixed machine's tickets. */
  lemma InSubqueryMeaning(db: Database, ticketId: Option<int>)
    ensures OfFixedMachineTicket(db, ticketId) <==> ticketId.Some? && FixedMachineTicketId(db, ticketId.value)
  {
    if ticketId.Some? {
      MapMembership(MachineTickets(db), (t: MaintenanceTicket) => t.id, ticketId.value);
    }
  }

  /** The `ticket_spare_parts` rows of a ticket: one per movement of that
      ticket naming an existing spare part, and none unless the ticket belongs
      to the fixed machine. */
  lemma TicketPartRowsMeaning(db: Database, ticketId: int)
    ensures forall row :: row in TicketPartRows(db, ticketId) <==>
      && FixedMachineTicketId(db, ticketId)
      && exists mv, sp :: mv in db.movements && sp in db.spareParts && mv.maintenanceTicketId == Some(ticketId)
                          && mv.sparePartId == Some(sp.id) && row == PartRow(mv, sp)
  {
    InSubqueryMeaning(db, Some(ticketId));
    forall row ensures row in TicketPartRows(db, ticketId) <==>
      (&& FixedMachineTicketId(db, ticketId)
       && exists mv, sp :: mv in db.movements && sp in db.spareParts && mv.maintenanceTicketId == Some(ticketId)
                           && mv.sparePartId == Some(sp.id) && row == PartRow(mv, sp))
    {
      TicketPartRowMeaning(db, ticketId, row);
    }
  }

  /** One row of a ticket's `ticket_spare_parts` rows. */
  lemma TicketPartRowMeaning(db: Database, ticketId: int, row: TicketSparePart)
    ensures row in TicketPartRows(db, ticketId) <==>
      && OfFixedMachineTicket(db, Some(ticketId))
      && exists mv, sp :: mv in db.movements && sp in db.spareParts && mv.maintenanceTicketId == Some(ticketId)
                          && MovesPart(mv, sp) && row == PartRow(mv, sp)
  {
    var joined := InnerJoin(db.movements, db.spareParts, MovesPart, PartRow);
    assert row in TicketPartRows(db, ticketId) <==>
      row in joined && OfFixedMachineTicket(db, row.maintenanceTicketId) && row.maintenanceTicketId == Some(ticketId);
  }

  /** The usage objects of a ticket, one per movement of the ticket naming
      an existing spare part, provided the ticket belongs to the fixed machine. */
  lemma UsagesMeaning(db: Database, ticketId: int)
    ensures forall u :: u in Usages(db, ticketId) <==>
      && FixedMachineTicketId(db, ticketId)
      && exists mv, sp :: mv in db.movements && sp in db.spareParts && mv.maintenanceTicketId == Some(ticketId)
                          && mv.sparePartId == Some(sp.id)
                          && u == SparePartUsage(Some(sp.id), sp.designation, sp.manufacturer, sp.supplier,
                                                 mv.quantity, mv.movementDate, CurrentStock(db, Some(sp.id)))
  {
    TicketPartRowsMeaning(db, ticketId);
    var rows := TicketPartRows(db, ticketId);
    forall u ensures u in Usages(db, ticketId) <==>
      (&& FixedMachineTicketId(db, ticketId)
       && exists mv, sp :: mv in db.movements && sp in db.spareParts && mv.maintenanceTicketId == Some(ticketId)
                           && mv.sparePartId == Some(sp.id)
                           && u == SparePartUsage(Some(sp.id), sp.designation, sp.manufacturer, sp.supplier,
                                                  mv.quantity, mv.movementDate, CurrentStock(db, Some(sp.id))))
    {
      MapMembership(rows, (row: TicketSparePart) => UsageOf(db, row), u);
      if u in Usages(db, ticketId) {
        var row :| row in rows && u == UsageOf(db, row);
        var mv, sp :| mv in db.movements && sp in db.spareParts && mv.maintenanceTicketId == Some(ticketId)
                      && mv.sparePartId == Some(sp.id) && row == PartRow(mv, sp);
        assert u == SparePartUsage(Some(sp.id), sp.designation, sp.manufacturer, sp.supplier,
                                   mv.quantity, mv.movementDate, CurrentStock(db, Some(sp.id)));
      }
      if && FixedMachineTicketId(db, ticketId)
         && exists mv, sp :: mv in db.movements && sp in db.spareParts && mv.maintenanceTicketId == Some(ticketId)
                             && mv.sparePartId == Some(sp.id)
                             && u == SparePartUsage(Some(sp.id), sp.designation, sp.manufacturer, sp.supplier,
                                                    mv.quantity, mv.movementDate, CurrentStock(db, Some(sp.id)))
      {
        var mv, sp :| mv in db.movements && sp in db.spareParts && mv.maintenanceTicketId == Some(ticketId)
                      && mv.sparePartId == Some(sp.id)
                      && u == SparePartUsage(Some(sp.id), sp.designation, sp.manufacturer, sp.supplier,
                                             mv.quantity, mv.movementDate, CurrentStock(db, Some(sp.id)));
        assert PartRow(mv, sp) in rows;
        assert u == UsageOf(db, PartRow(mv, sp));
      }
    }
  }

  /** A ticket's `spare_parts_used`: the part's columns, the movement's
      quantity and date, and the part's stock, for each movement of the
      ticket that names an existing spare part, provided the ticket belongs
      to the fixed machine; NULL when there is no such movement. */
  lemma UsageRows(db: Database, ticketId: int)
    ensures forall u :: (SparePartsUsed(db, ticketId).Some? && u in SparePartsUsed(db, ticketId).value) <==>
      && FixedMachineTicketId(db, ticketId)
      && exists mv, sp :: mv in db.movements && sp in db.spareParts && mv.maintenanceTicketId == Some(ticketId)
                          && mv.sparePartId == Some(sp.id)
                          && u == SparePartUsage(Some(sp.id), sp.designation, sp.manufacturer, sp.supplier,
                                                 mv.quantity, mv.movementDate, CurrentStock(db, Some(sp.id)))
    ensures SparePartsUsed(db, ticketId).None? <==>
      || !FixedMachineTicketId(db, ticketId)
      || forall mv, sp :: mv in db.movements && sp in db.spareParts && mv.maintenanceTicketId == Some(ticketId)
                          ==> mv.sparePartId != Some(sp.id)
  {
    UsagesMeaning(db, ticketId);
    UsagesEmpty(db, ticketId);
    JsonAggMeaning(Usages(db, ticketId));
  }

  /** A ticket has no usage object exactly when it is not the fixed machine's
      or none of its movements names an existing spare part. */
  lemma UsagesEmpty(db: Database, ticketId: int)
    ensures Usages(db, ticketId) == [] <==>
      || !FixedMachineTicketId(db, ticketId)
      || forall mv, sp :: mv in db.movements && sp in db.spareParts && mv.maintenanceTicketId == Some(ticketId)
                          ==> mv.sparePartId != Some(sp.id)
  {
    TicketPartRowsMeaning(db, ticketId);
    var rows := TicketPartRows(db, ticketId);
    assert |Usages(db, ticketId)| == |rows|;
    assert rows != [] ==> rows[0] in rows;
    if FixedMachineTicketId(db, ticketId) && exists mv, sp :: (mv in db.movements && sp in db.spareParts
         && mv.maintenanceTicketId == Some(ticketId) && mv.sparePartId == Some(sp.id))
    {
      var mv, sp :| mv in db.movements && sp in db.spareParts
                    && mv.maintenanceTicketId == Some(ticketId) && mv.sparePartId == Some(sp.id);
      assert PartRow(mv, sp) in rows;
    }
  }

  /** A movement whose spare_part_id names an existing spare part. */
  predicate NamesSparePart(db: Database, mv: SparePartMovement)
  {
    exists sp :: sp in db.spareParts && MovesPart(mv, sp)
  }

  /** The movements of a ticket that name an existing spare part. */
  function MovementsOf(db: Database, ticketId: int): seq<SparePartMovement>
  {
    Filter(db.movements, (mv: SparePartMovement) => SqlEq(mv.maintenanceTicketId, Some(ticketId)) && NamesSparePart(db, mv))
  }

  /** With unique spare part ids, a ticket of the fixed machine has exactly
      one entry in `spare_parts_used` per movement of that ticket naming an
      existing spare part: the join neither drops nor duplicates movements. */
  lemma UsageCount(db: Database, ticketId: int)
    requires KeyedBy(db.spareParts, (sp: SparePart) => sp.id)
    requires FixedMachineTicketId(db, ticketId)
    ensures AggSize(SparePartsUsed(db, ticketId)) == |MovementsOf(db, ticketId)|
  {
    InSubqueryMeaning(db, Some(ticketId));
    var joined := InnerJoin(db.movements, db.spareParts, MovesPart, PartRow);
    var ofTicket := (row: TicketSparePart) => SqlEq(row.maintenanceTicketId, Some(ticketId));
    FilterFilter(joined, (row: TicketSparePart) => OfFixedMachineTicket(db, row.maintenanceTicketId),
                 (row: TicketSparePart) => SqlEq(row.maintenanceTicketId, Some(ticketId)), ofTicket);
    var movesOfTicket := (mv: SparePartMovement) => SqlEq(mv.maintenanceTicketId, Some(ticketId));
    FilterJoin(db.movements, db.spareParts, MovesPart, PartRow, ofTicket, movesOfTicket);
    var named := (mv: SparePartMovement) => NamesSparePart(db, mv);
    InnerJoinSize(Filter(db.movements, movesOfTicket), db.spareParts, MovesPart, PartRow, named);
    FilterFilter(db.movements, movesOfTicket, named,
                 (mv: SparePartMovement) => SqlEq(mv.maintenanceTicketId, Some(ticketId)) && NamesSparePart(db, mv));
    assert |Usages(db, ticketId)| == |TicketPartRows(db, ticketId)|;
  }

  // ---------------------------------------------------------------------------
  // What a usage's current_stock holds

  /** The stock levels reported for a part: one per `spare_part_stock` row of
      that part, whatever its plant. */
  lemma StockLevelsMeaning(db: Database, partId: int)
    ensures forall sl :: sl in StockLevels(db, Some(partId)) <==>
      exists s :: s in db.stock && s.sparePartId == Some(partId) && sl == StockLevel(s.plantName, s.currentStock, s.unitMeasure)
  {
    var rows := Filter(db.stock, (s: SparePartStock) => SqlEq(s.sparePartId, Some(partId)));
    forall sl ensures sl in StockLevels(db, Some(partId)) <==>
      exists s :: s in db.stock && s.sparePartId == Some(partId) && sl == StockLevel(s.plantName, s.currentStock, s.unitMeasure)
    {
      MapMembership(rows, StockLevelOf, sl);
    }
  }

  /** A part's `current_stock`: every stock row of the part in every plant
      (no plant filter), each row once; NULL when the part has no stock row. */
  lemma StockRows(db: Database, partId: int)
    ensures forall sl :: (CurrentStock(db, Some(partId)).Some? && sl in CurrentStock(db, Some(partId)).value) <==>
      exists s :: s in db.stock && s.sparePartId == Some(partId) && sl == StockLevel(s.plantName, s.currentStock, s.unitMeasure)
    ensures CurrentStock(db, Some(partId)).None? <==> forall s :: s in db.stock ==> s.sparePartId != Some(partId)
    ensures AggSize(CurrentStock(db, Some(partId))) == |Filter(db.stock, (s: SparePartStock) => s.sparePartId == Some(partId))|
  {
    StockLevelsMeaning(db, partId);
    var rows := Filter(db.stock, (s: SparePartStock) => SqlEq(s.sparePartId, Some(partId)));
    var levels := StockLevels(db, Some(partId));
    assert forall sl :: sl in multiset(levels) <==> sl in levels;
    if levels != [] {
      assert levels[0] in levels;
    }
    if s :| s in db.stock && s.sparePartId == Some(partId) {
      assert StockLevelOf(s) in levels;
    }
    FilterSameTest(db.stock, (s: SparePartStock) => SqlEq(s.sparePartId, Some(partId)),
                   (s: SparePartStock) => s.sparePartId == Some(partId));
  }

  // ---------------------------------------------------------------------------
  // The unused common table expression

  /** The rows the joins of `plant_stock` produce. */
  lemma PlacedStockMeaning(db: Database)
    ensures forall t: (SparePartStock, SparePart, Machine) :: t in PlacedStock(db) <==>
      && t.0 in db.stock && t.1 in db.spareParts && t.2 in db.machines
      && t.0.sparePartId == Some(t.1.id) && t.0.plantName == t.2.plantName
  {
    var stocked := InnerJoin(db.stock, db.spareParts, StocksPart, Stocked);
    forall s, sp, m | && s in db.stock && sp in db.spareParts && m in db.machines
                      && s.sparePartId == Some(sp.id) && s.plantName == m.plantName
      ensures (s, sp, m) in PlacedStock(db)
    {
      assert Stocked(s, sp) in stocked;
      assert Placed(Stocked(s, sp), m) == (s, sp, m);
    }
  }

  /** `plant_stock` holds the stock rows, joined to their part, of the plants
      that hold a machine with the fixed id. */
  lemma PlantStockRows(db: Database, row: PlantStockRow)
    ensures row in PlantStock(db) <==>
      exists s, sp, m :: && s in db.stock && sp in db.spareParts && m in db.machines
                         && s.sparePartId == Some(sp.id) && s.plantName == m.plantName && m.id == FixedMachineId
                         && row == PlantStockRow(Some(sp.id), s.currentStock, s.unitMeasure,
                                                 sp.designation, sp.manufacturer, sp.supplier)
  {
    PlacedStockMeaning(db);
    var kept := Filter(PlacedStock(db), AtFixedMachine);
    MapMembership(kept, PlantStockRowOf, row);
    if row in PlantStock(db) {
      var t :| t in kept && row == PlantStockRowOf(t);
      assert row == PlantStockRow(Some(t.1.id), t.0.currentStock, t.0.unitMeasure,
                                  t.1.designation, t.1.manufacturer, t.1.supplier);
    }
    if exists s, sp, m :: && s in db.stock && sp in db.spareParts && m in db.machines
                          && s.sparePartId == Some(sp.id) && s.plantName == m.plantName && m.id == FixedMachineId
                          && row == PlantStockRow(Some(sp.id), s.currentStock, s.unitMeasure,
                                                  sp.designation, sp.manufacturer, sp.supplier)
    {
      var s, sp, m :| && s in db.stock && sp in db.spareParts && m in db.machines
                      && s.sparePartId == Some(sp.id) && s.plantName == m.plantName && m.id == FixedMachineId
                      && row == PlantStockRow(Some(sp.id), s.currentStock, s.unitMeasure,
                                              sp.designation, sp.manufacturer, sp.supplier);
      assert (s, sp, m) in kept;
    }
  }

  // ---------------------------------------------------------------------------
  // A worked example: machine 1 with ticket 10 using part 7 and ticket 11
  // using none; part 7 is stocked in the machine's plant and in another one.

  function ExampleDatabase(): Database
  {
    Database(
      [Machine(1, "Plant-1", "Press")],
      [MaintenanceTicket(10, "T-10", "2024-01-02", "leak", "seal", "replaced seal", Some(1)),
       MaintenanceTicket(11, "T-11", "2024-02-03", "noise", "wear", "inspected", Some(1))],
      [SparePartMovement(Some(10), Some(7), 3, "2024-01-02")],
      [SparePart(7, "Seal", "Acme", "Parts Inc")],
      [SparePartStock(Some(7), "Plant-1", 50, "pcs"), SparePartStock(Some(7), "Plant-2", 20, "pcs")])
  }

  /** A ticket without movements gets NULL, not an empty list, as its
      `spare_parts_used`; the ticket with one movement gets one entry. */
  lemma ExampleSparePartsUsed()
    ensures SparePartsUsed(ExampleDatabase(), 11) == None
    ensures AggSize(SparePartsUsed(ExampleDatabase(), 10)) == 1
  {
    var db := ExampleDatabase();
    assert forall mv :: mv in db.movements ==> mv.maintenanceTicketId == Some(10);
    UsagesEmpty(db, 11);
    JsonAggMeaning(Usages(db, 11));
    ExampleUsageOfTicket10();
  }

  lemma ExampleUsageOfTicket10()
    ensures AggSize(SparePartsUsed(ExampleDatabase(), 10)) == 1
  {
    var db := ExampleDatabase();
    assert db.tickets[0] in db.tickets;
    assert KeyedBy(db.spareParts, (sp: SparePart) => sp.id);
    assert NamesSparePart(db, db.movements[0]) by {
      assert db.spareParts[0] in db.spareParts;
    }
    assert MovementsOf(db, 10) == db.movements;
    UsageCount(db, 10);
  }

  /** The stock of part 7 lists the row of the other plant too. */
  lemma ExampleStockOfOtherPlant()
    ensures CurrentStock(ExampleDatabase(), Some(7)).Some?
    ensures StockLevel("Plant-2", 20, "pcs") in CurrentStock(ExampleDatabase(), Some(7)).value
  {
    var db := ExampleDatabase();
    StockRows(db, 7);
    assert db.stock[1] in db.stock;
  }

  /** The fetched row of machine 1 holds both tickets. */
  lemma ExampleTickets()
    ensures FetchMachine(ExampleDatabase(), 1).Some?
    ensures FetchMachine(ExampleDatabase(), 1).value.maintenanceTickets.Some?
    ensures |FetchMachine(ExampleDatabase(), 1).value.maintenanceTickets.value| == 2
  {
    var db := ExampleDatabase();
    assert KeyedBy(db.machines, (x: Machine) => x.id);
    assert KeyedBy(db.tickets, (t: MaintenanceTicket) => t.id);
    assert MachineTickets(db) == db.tickets;
    FixedMachineRow(db, db.machines[0]);
  }
}
