/**
 * Assembly of a loan's collateral links from a request payload. The payload's "collateral"
 * member is an array of entries; an entry without an id becomes a new link that belongs to no
 * loan yet, and an entry with an id overwrites the existing link with that id, in place.
 */
module Assembler {
  import opened Wrappers
  import opened Platform
  import opened Collaterals
  import opened LoanCollaterals

  /** One entry of the "collateral" array; absent members are None. */
  datatype CollateralItem = CollateralItem(id: Option<int>, collateral: Option<int>, quantity: Option<real>, value: Option<real>)

  /** The "collateral" member of the top-level object. */
  datatype CollateralMember = Missing | NotAnArray | Items(items: seq<CollateralItem>)

  /** The parsed payload: a JSON object, or any other JSON element. */
  datatype JsonElement = NotAnObject | JsonObject(collateral: CollateralMember)

  /** The rows an assembly produces: the new links in order, and the overwritten links by id. */
  datatype Assembly = Assembly(created: seq<LinkRow>, updated: map<int, LinkRow>)

  /** The entries the loop walks over. */
  function Entries(element: JsonElement): seq<CollateralItem> {
    if element.JsonObject? && element.collateral.Items? then element.collateral.items else []
  }

  /** The collateral an entry names, or None (a null reference) when no such definition exists. */
  function Reference(item: CollateralItem, collaterals: map<int, CollateralRow>): (c: Option<int>)
    ensures c.Some? <==> item.collateral.Some? && item.collateral.value in collaterals
    ensures c.Some? ==> c == item.collateral
  {
    if item.collateral.Some? && item.collateral.value in collaterals then item.collateral else None
  }

  /** The link an entry without an id produces. */
  function NewLink(item: CollateralItem, collaterals: map<int, CollateralRow>): LinkRow {
    LinkRow(None, Reference(item, collaterals), item.value, item.quantity)
  }

  /** An existing link overwritten from an entry: everything but the loan comes from the entry. */
  function Reassembled(row: LinkRow, item: CollateralItem, collaterals: map<int, CollateralRow>): LinkRow {
    LinkRow(row.loan, Reference(item, collaterals), item.value, item.quantity)
  }

  /**
   * One turn of the loop: the entry's definition is looked up first, and a null definition id
   * is refused; then the entry adds a new link, or overwrites the stored link it names.
   */
  function Step(a: Assembly, item: CollateralItem, links: map<int, LinkRow>, collaterals: map<int, CollateralRow>): (r: Result<Assembly, Error>)
    ensures r.Success? <==> EntryResolves(item, links)
    ensures item.collateral.None? ==> r == Failure(NullIdentifier)
    ensures item.collateral.Some? && item.id.Some? && item.id.value !in links ==> r == Failure(CollateralNotFound(None, item.id.value))
  {
    if item.collateral.None? then Failure(NullIdentifier)
    else if item.id.None? then Success(a.(created := a.created + [NewLink(item, collaterals)]))
    else if item.id.value !in links then Failure(CollateralNotFound(None, item.id.value))
    else Success(a.(updated := a.updated[item.id.value := Reassembled(links[item.id.value], item, collaterals)]))
  }

  /** The indexed loop over the entries, taken left to right; an unknown link id stops it. */
  function AssembleItems(items: seq<CollateralItem>, links: map<int, LinkRow>, collaterals: map<int, CollateralRow>): (r: Result<Assembly, Error>)
    ensures items == [] ==> r == Success(Assembly([], map[]))
    ensures r.Failure? ==> r.error == NullIdentifier || (r.error.CollateralNotFound? && r.error.forLoan.None?)
    decreases |items|
  {
    if items == [] then Success(Assembly([], map[]))
    else
      match AssembleItems(items[..|items| - 1], links, collaterals)
      case Failure(e) => Failure(e)
      case Success(a) => Step(a, items[|items| - 1], links, collaterals)
  }

  /** The whole assembly: anything but an object with a "collateral" array yields nothing. */
  function Assemble(element: JsonElement, links: map<int, LinkRow>, collaterals: map<int, CollateralRow>): (r: Result<Assembly, Error>)
    ensures !element.JsonObject? ==> r == Success(Assembly([], map[]))
    ensures element.JsonObject? && !element.collateral.Items? ==> r == Success(Assembly([], map[]))
  {
    if element.JsonObject? && element.collateral.Items? then AssembleItems(element.collateral.items, links, collaterals)
    else Success(Assembly([], map[]))
  }

  /** An entry names a definition id, and, when it has a link id, a stored link. */
  predicate EntryResolves(item: CollateralItem, links: map<int, LinkRow>) {
    item.collateral.Some? && (item.id.Some? ==> item.id.value in links)
  }

  predicate AllResolve(items: seq<CollateralItem>, links: map<int, LinkRow>) {
    forall i :: 0 <= i < |items| ==> EntryResolves(items[i], links)
  }

  /** Reference definition of the new links: one per entry without an id, in entry order. */
  function NewLinks(items: seq<CollateralItem>, collaterals: map<int, CollateralRow>): (rows: seq<LinkRow>)
    ensures |rows| <= |items|
    ensures forall j :: 0 <= j < |rows| ==> rows[j].loan.None?
    decreases |items|
  {
    if items == [] then []
    else
      var init, last := items[..|items| - 1], items[|items| - 1];
      NewLinks(init, collaterals) + (if last.id.None? then [NewLink(last, collaterals)] else [])
  }

  /** Entry j is the last entry that names link id k. */
  predicate LastEntryFor(items: seq<CollateralItem>, k: int, j: int) {
    0 <= j < |items| && items[j].id == Some(k) && forall j' :: j < j' < |items| ==> items[j'].id != Some(k)
  }

  /** The assembly fails exactly when an entry lacks a definition id or names a link id that is not stored. */
  lemma {:induction false} AssembleFailsIff(items: seq<CollateralItem>, links: map<int, LinkRow>, collaterals: map<int, CollateralRow>)
    ensures AssembleItems(items, links, collaterals).Success? <==> AllResolve(items, links)
    decreases |items|
  {
    if items != [] {
      var init := items[..|items| - 1];
      AssembleFailsIff(init, links, collaterals);
      assert forall i :: 0 <= i < |init| ==> init[i] == items[i];
    }
  }

  /**
   * A failed assembly reports its first entry that does not resolve: a null definition id as
   * an illegal argument, otherwise the unknown link id as not found.
   */
  lemma {:induction false} AssembleFailsAtFirstBadEntry(items: seq<CollateralItem>, links: map<int, LinkRow>, collaterals: map<int, CollateralRow>)
    requires AssembleItems(items, links, collaterals).Failure?
    ensures exists j :: (0 <= j < |items| && !EntryResolves(items[j], links) && AllResolve(items[..j], links)
      && AssembleItems(items, links, collaterals).error ==
           if items[j].collateral.None? then NullIdentifier else CollateralNotFound(None, items[j].id.value))
    decreases |items|
  {
    var init := items[..|items| - 1];
    var e := AssembleItems(items, links, collaterals).error;
    if AssembleItems(init, links, collaterals).Failure? {
      AssembleFailsAtFirstBadEntry(init, links, collaterals);
      var j :| 0 <= j < |init| && !EntryResolves(init[j], links) && AllResolve(init[..j], links)
        && e == (if init[j].collateral.None? then NullIdentifier else CollateralNotFound(None, init[j].id.value));
      assert init[..j] == items[..j] && init[j] == items[j];
    } else {
      AssembleFailsIff(init, links, collaterals);
      assert items[..|items| - 1] == init;
    }
  }

  /** One more entry is one more step. */
  lemma AssembleItemsSnoc(entries: seq<CollateralItem>, i: nat, links: map<int, LinkRow>, collaterals: map<int, CollateralRow>)
    requires i < |entries| && AssembleItems(entries[..i], links, collaterals).Success?
    ensures AssembleItems(entries[..i + 1], links, collaterals) ==
      Step(AssembleItems(entries[..i], links, collaterals).value, entries[i], links, collaterals)
  {
    assert entries[..i + 1][..i] == entries[..i];
  }

  /** Once a prefix of the entries fails, the whole assembly fails with that error. */
  lemma {:induction false} AssembleFailurePersists(items: seq<CollateralItem>, k: nat, links: map<int, LinkRow>, collaterals: map<int, CollateralRow>)
    requires k <= |items|
    requires AssembleItems(items[..k], links, collaterals).Failure?
    ensures AssembleItems(items, links, collaterals) == AssembleItems(items[..k], links, collaterals)
    decreases |items| - k
  {
    if k == |items| {
      assert items[..k] == items;
    } else {
      var init := items[..|items| - 1];
      assert init[..k] == items[..k];
      AssembleFailurePersists(init, k, links, collaterals);
    }
  }

  /** A successful assembly holds at most one link per entry. */
  lemma {:induction false} AssembleIsBounded(items: seq<CollateralItem>, links: map<int, LinkRow>, collaterals: map<int, CollateralRow>)
    requires AssembleItems(items, links, collaterals).Success?
    ensures |AssembleItems(items, links, collaterals).value.created| + |AssembleItems(items, links, collaterals).value.updated| <= |items|
    decreases |items|
  {
    if items != [] {
      AssembleIsBounded(items[..|items| - 1], links, collaterals);
    }
  }

  /** The new links are those of the entries without an id, in entry order, and belong to no loan. */
  lemma {:induction false} AssembleCreatesNewLinks(items: seq<CollateralItem>, links: map<int, LinkRow>, collaterals: map<int, CollateralRow>)
    requires AssembleItems(items, links, collaterals).Success?
    ensures AssembleItems(items, links, collaterals).value.created == NewLinks(items, collaterals)
    decreases |items|
  {
    if items != [] {
      AssembleCreatesNewLinks(items[..|items| - 1], links, collaterals);
    }
  }

  /** The overwritten links are exactly the stored links some entry names. */
  lemma {:induction false} AssembleUpdatesNamedLinks(items: seq<CollateralItem>, links: map<int, LinkRow>, collaterals: map<int, CollateralRow>)
    requires AssembleItems(items, links, collaterals).Success?
    ensures forall k :: k in AssembleItems(items, links, collaterals).value.updated <==>
      (k in links && exists j :: 0 <= j < |items| && items[j].id == Some(k))
    decreases |items|
  {
    if items != [] {
      var init := items[..|items| - 1];
      AssembleUpdatesNamedLinks(init, links, collaterals);
      assert forall j :: 0 <= j < |init| ==> init[j] == items[j];
      var a := AssembleItems(items, links, collaterals).value;
      forall k | k in links && exists j :: 0 <= j < |items| && items[j].id == Some(k)
        ensures k in a.updated
      {
        var j :| 0 <= j < |items| && items[j].id == Some(k);
        if j < |init| {
          assert init[j].id == Some(k);
        }
      }
    }
  }

  /** The last entry naming link k decides its row; the proof for one k. */
  lemma {:induction false} TakesLastEntryFor(items: seq<CollateralItem>, links: map<int, LinkRow>, collaterals: map<int, CollateralRow>, k: int)
    requires AssembleItems(items, links, collaterals).Success?
    requires k in AssembleItems(items, links, collaterals).value.updated
    ensures k in links
    ensures exists j :: (LastEntryFor(items, k, j) &&
      AssembleItems(items, links, collaterals).value.updated[k] == Reassembled(links[k], items[j], collaterals))
    decreases |items|
  {
    var init, last := items[..|items| - 1], items[|items| - 1];
    var a0 := AssembleItems(init, links, collaterals).value;
    var a := AssembleItems(items, links, collaterals).value;
    assert Step(a0, last, links, collaterals) == Success(a);
    if last.id == Some(k) {
      assert LastEntryFor(items, k, |items| - 1);
    } else {
      assert a.updated[k] == a0.updated[k];
      TakesLastEntryFor(init, links, collaterals, k);
      var j :| LastEntryFor(init, k, j) && a0.updated[k] == Reassembled(links[k], init[j], collaterals);
      assert items[j] == init[j];
      assert LastEntryFor(items, k, j);
    }
  }

  /** Each overwritten link keeps its loan and takes its other fields from the last entry naming it. */
  lemma AssembleTakesLastEntry(items: seq<CollateralItem>, links: map<int, LinkRow>, collaterals: map<int, CollateralRow>)
    requires AssembleItems(items, links, collaterals).Success?
    ensures var a := AssembleItems(items, links, collaterals).value;
      forall k :: k in a.updated ==>
        k in links && exists j :: LastEntryFor(items, k, j) && a.updated[k] == Reassembled(links[k], items[j], collaterals)
  {
    forall k | k in AssembleItems(items, links, collaterals).value.updated {
      TakesLastEntryFor(items, links, collaterals, k);
    }
  }

  lemma ValuesOfFreshKey<K, V>(m: map<K, V>, k: K, v: V)
    requires k !in m
    ensures m[k := v].Values == m.Values + {v}
  {
    forall o | o in m.Values ensures o in m[k := v].Values {
      var k' :| k' in m && m[k'] == o;
      assert m[k := v][k'] == o;
    }
    assert m[k := v][k] == v;
  }

  /** The loaded objects carry the rows of the assembly, in order for new links and by id for stored ones. */
  ghost predicate Mirrors(a: Assembly, created: seq<LoanCollateral>, loaded: map<int, LoanCollateral>, links: map<int, LinkRow>)
    reads (set o | o in created), loaded.Values
  {
    && |created| == |a.created|
    && (forall j :: 0 <= j < |created| ==> created[j].Row() == a.created[j])
    && loaded.Keys == a.updated.Keys
    && (forall k :: k in loaded ==> loaded[k].Row() == a.updated[k] && k in links && loaded[k].loan == links[k].loan)
  }

  /** No object stands for two entries of the assembly. */
  ghost predicate Distinct(created: seq<LoanCollateral>, loaded: map<int, LoanCollateral>)
  {
    && (forall j, j' :: 0 <= j < j' < |created| ==> created[j] != created[j'])
    && (forall k, k' :: k in loaded && k' in loaded && k != k' ==> loaded[k] != loaded[k'])
    && (forall j, k :: 0 <= j < |created| && k in loaded ==> created[j] != loaded[k])
  }

  /** The loop state mirrors the assembly: which object carries which row, and what the result set holds. */
  ghost predicate Tracks(a: Assembly, created: seq<LoanCollateral>, loaded: map<int, LoanCollateral>,
                         items: set<LoanCollateral>, links: map<int, LinkRow>)
    reads (set o | o in created), loaded.Values
  {
    Mirrors(a, created, loaded, links) && Distinct(created, loaded) && items == (set o | o in created) + loaded.Values
  }

  lemma DistinctAppend(created: seq<LoanCollateral>, loaded: map<int, LoanCollateral>, link: LoanCollateral)
    requires Distinct(created, loaded)
    requires link !in created && link !in loaded.Values
    ensures Distinct(created + [link], loaded)
  {
    var created' := created + [link];
    forall j, k | 0 <= j < |created'| && k in loaded ensures created'[j] != loaded[k] {
      assert loaded[k] in loaded.Values;
    }
  }

  lemma MirrorsAppend(a: Assembly, created: seq<LoanCollateral>, loaded: map<int, LoanCollateral>,
                      links: map<int, LinkRow>, link: LoanCollateral)
    requires Mirrors(a, created, loaded, links)
    ensures Mirrors(a.(created := a.created + [link.Row()]), created + [link], loaded, links)
  {
    var created' := created + [link];
    assert forall j :: 0 <= j < |created| ==> created'[j] == created[j];
  }

  lemma MirrorsLoad(a: Assembly, created: seq<LoanCollateral>, loaded: map<int, LoanCollateral>,
                    links: map<int, LinkRow>, id: int, link: LoanCollateral)
    requires Mirrors(a, created, loaded, links)
    requires id !in loaded && id in links && link.loan == links[id].loan
    ensures Mirrors(a.(updated := a.updated[id := link.Row()]), created, loaded[id := link], links)
  {
  }

  lemma DistinctLoad(created: seq<LoanCollateral>, loaded: map<int, LoanCollateral>, id: int, link: LoanCollateral)
    requires Distinct(created, loaded)
    requires id !in loaded && link !in created && link !in loaded.Values
    ensures Distinct(created, loaded[id := link])
  {
    var loaded' := loaded[id := link];
    forall k, k' | k in loaded' && k' in loaded' && k != k' ensures loaded'[k] != loaded'[k'] {
      if k != id && k' != id {
        assert loaded'[k] == loaded[k] && loaded'[k'] == loaded[k'];
      } else if k == id {
        assert loaded[k'] in loaded.Values;
      } else {
        assert loaded[k] in loaded.Values;
      }
    }
  }

  lemma TracksAppend(a: Assembly, created: seq<LoanCollateral>, loaded: map<int, LoanCollateral>,
                      items: set<LoanCollateral>, links: map<int, LinkRow>, link: LoanCollateral)
    requires Tracks(a, created, loaded, items, links) && link !in items
    ensures Tracks(a.(created := a.created + [link.Row()]), created + [link], loaded, items + {link}, links)
  {
    DistinctAppend(created, loaded, link);
    MirrorsAppend(a, created, loaded, links, link);
    assert (set o | o in created + [link]) == (set o | o in created) + {link};
  }

  lemma TracksLoad(a: Assembly, created: seq<LoanCollateral>, loaded: map<int, LoanCollateral>,
                   items: set<LoanCollateral>, links: map<int, LinkRow>, id: int, link: LoanCollateral)
    requires Tracks(a, created, loaded, items, links) && link !in items
    requires id !in loaded && id in links && link.loan == links[id].loan
    ensures Tracks(a.(updated := a.updated[id := link.Row()]), created, loaded[id := link], items + {link}, links)
  {
    DistinctLoad(created, loaded, id, link);
    MirrorsLoad(a, created, loaded, links, id, link);
    ValuesOfFreshKey(loaded, id, link);
  }

  /** An entry without an id: a new link, not yet tied to a loan. */
  method AddNew(item: CollateralItem, links: map<int, LinkRow>, collaterals: map<int, CollateralRow>,
                ghost a: Assembly, ghost created: seq<LoanCollateral>, loaded: map<int, LoanCollateral>,
                items: set<LoanCollateral>)
    returns (ghost a': Assembly, ghost created': seq<LoanCollateral>, items': set<LoanCollateral>)
    requires Tracks(a, created, loaded, items, links) && item.collateral.Some?
    ensures a' == a.(created := a.created + [NewLink(item, collaterals)])
    ensures Tracks(a', created', loaded, items', links)
    ensures |items'| <= |items| + 1
    ensures forall o :: o in items' ==> o in items || fresh(o)
  {
    var collateral := if item.collateral.value in collaterals then item.collateral else None;
    var link := LoanCollateral.From(collateral, item.value, item.quantity);
    TracksAppend(a, created, loaded, items, links, link);
    a', created', items' := a.(created := a.created + [NewLink(item, collaterals)]), created + [link], items + {link};
  }

  /** An entry naming a link this call has already loaded: the same object is assembled again. */
  method Revisit(item: CollateralItem, links: map<int, LinkRow>, collaterals: map<int, CollateralRow>,
                 ghost a: Assembly, ghost created: seq<LoanCollateral>, loaded: map<int, LoanCollateral>,
                 items: set<LoanCollateral>)
    returns (ghost a': Assembly)
    requires Tracks(a, created, loaded, items, links)
    requires item.collateral.Some? && item.id.Some? && item.id.value in loaded
    modifies loaded[item.id.value]
    ensures item.id.value in links
    ensures a' == a.(updated := a.updated[item.id.value := Reassembled(links[item.id.value], item, collaterals)])
    ensures Tracks(a', created, loaded, items, links)
  {
    var id := item.id.value;
    var found := loaded[id];
    var collateral := if item.collateral.value in collaterals then item.collateral else None;
    found.AssembleFrom(collateral, item.value, item.quantity);
    a' := a.(updated := a.updated[id := Reassembled(links[id], item, collaterals)]);
  }

  /** An entry naming a stored link not yet loaded by this call: it is loaded, then assembled. */
  method LoadAndAssemble(item: CollateralItem, links: map<int, LinkRow>, collaterals: map<int, CollateralRow>,
                         ghost a: Assembly, ghost created: seq<LoanCollateral>, loaded: map<int, LoanCollateral>,
                         items: set<LoanCollateral>)
    returns (ghost a': Assembly, loaded': map<int, LoanCollateral>, items': set<LoanCollateral>)
    requires Tracks(a, created, loaded, items, links)
    requires item.collateral.Some? && item.id.Some? && item.id.value !in loaded && item.id.value in links
    ensures a' == a.(updated := a.updated[item.id.value := Reassembled(links[item.id.value], item, collaterals)])
    ensures Tracks(a', created, loaded', items', links)
    ensures |items'| <= |items| + 1
    ensures forall o :: o in items' ==> o in items || fresh(o)
  {
    var id := item.id.value;
    var row := links[id];
    var found := new LoanCollateral(row.loan, row.collateral, row.value, row.quantity);
    var collateral := if item.collateral.value in collaterals then item.collateral else None;
    found.AssembleFrom(collateral, item.value, item.quantity);
    loaded' := loaded[id := found];
    TracksLoad(a, created, loaded, items, links, id, found);
    a', items' := a.(updated := a.updated[id := Reassembled(links[id], item, collaterals)]), items + {found};
  }

  /** The body of the loop for one entry; err is the error of an entry that does not resolve. */
  method AssembleEntry(item: CollateralItem, links: map<int, LinkRow>, collaterals: map<int, CollateralRow>,
                       ghost a: Assembly, ghost created: seq<LoanCollateral>, loaded: map<int, LoanCollateral>,
                       items: set<LoanCollateral>)
    returns (err: Option<Error>, ghost a': Assembly, ghost created': seq<LoanCollateral>, loaded': map<int, LoanCollateral>,
             items': set<LoanCollateral>)
    requires Tracks(a, created, loaded, items, links)
    modifies loaded.Values
    ensures err.Some? ==> Step(a, item, links, collaterals) == Failure(err.value) && loaded' == loaded
    ensures err.None? ==> Step(a, item, links, collaterals) == Success(a') && Tracks(a', created', loaded', items', links)
    ensures err.None? ==> |items'| <= |items| + 1
    ensures err.None? ==> forall o :: o in items' ==> o in items || fresh(o)
  {
    if item.collateral.None? {
      err, a', created', loaded', items' := Some(NullIdentifier), a, created, loaded, items;
    } else if item.id.None? {
      err, loaded' := None, loaded;
      a', created', items' := AddNew(item, links, collaterals, a, created, loaded, items);
    } else if item.id.value in loaded {
      err, created', loaded', items' := None, created, loaded, items;
      a' := Revisit(item, links, collaterals, a, created, loaded, items);
    } else if item.id.value in links {
      err, created' := None, created;
      a', loaded', items' := LoadAndAssemble(item, links, collaterals, a, created, loaded, items);
    } else {
      err, a', created', loaded', items' := Some(CollateralNotFound(None, item.id.value)), a, created, loaded, items;
    }
  }

  /** The entry at index i, taken after a successful prefix; a failing entry decides the whole assembly. */
  method AssembleNext(entries: seq<CollateralItem>, i: nat, links: map<int, LinkRow>, collaterals: map<int, CollateralRow>,
                      ghost a: Assembly, ghost created: seq<LoanCollateral>, loaded: map<int, LoanCollateral>,
                      items: set<LoanCollateral>)
    returns (err: Option<Error>, ghost a': Assembly, ghost created': seq<LoanCollateral>, loaded': map<int, LoanCollateral>,
             items': set<LoanCollateral>)
    requires i < |entries| && AssembleItems(entries[..i], links, collaterals) == Success(a)
    requires Tracks(a, created, loaded, items, links)
    modifies loaded.Values
    ensures err.Some? ==> AssembleItems(entries, links, collaterals) == Failure(err.value)
    ensures err.None? ==> AssembleItems(entries[..i + 1], links, collaterals) == Success(a') && Tracks(a', created', loaded', items', links)
    ensures err.None? ==> |items'| <= |items| + 1
    ensures err.None? ==> forall o :: o in items' ==> o in items || fresh(o)
  {
    AssembleItemsSnoc(entries, i, links, collaterals);
    err, a', created', loaded', items' := AssembleEntry(entries[i], links, collaterals, a, created, loaded, items);
    if err.Some? {
      AssembleFailurePersists(entries, i + 1, links, collaterals);
    }
  }

  /** The loop over the entries, one entry per turn, stopping at the first entry that does not resolve. */
  method AssembleEntries(entries: seq<CollateralItem>, links: map<int, LinkRow>, collaterals: map<int, CollateralRow>)
    returns (r: Result<set<LoanCollateral>, Error>, ghost a: Assembly, ghost created: seq<LoanCollateral>,
             ghost session: map<int, LoanCollateral>)
    ensures r.Failure? ==> AssembleItems(entries, links, collaterals) == Failure(r.error)
    ensures r.Success? ==> AssembleItems(entries, links, collaterals) == Success(a) && Tracks(a, created, session, r.value, links)
    ensures r.Success? ==> |r.value| <= |entries|
    ensures r.Success? ==> forall o :: o in r.value ==> fresh(o)
  {
    var collateralItems: set<LoanCollateral> := {};
    var loaded: map<int, LoanCollateral> := map[];
    created := [];
    a := Assembly([], map[]);
    for i := 0 to |entries|
      invariant AssembleItems(entries[..i], links, collaterals) == Success(a)
      invariant Tracks(a, created, loaded, collateralItems, links)
      invariant forall o :: o in collateralItems ==> fresh(o)
      invariant |collateralItems| <= i
    {
      assert loaded.Values <= collateralItems;
      var err;
      err, a, created, loaded, collateralItems := AssembleNext(entries, i, links, collaterals, a, created, loaded, collateralItems);
      if err.Some? {
        r, session := Failure(err.value), loaded;
        return;
      }
    }
    assert entries[..|entries|] == entries;
    r, session := Success(collateralItems), loaded;
  }

  /**
   * Walks the payload's "collateral" entries and returns the links to associate with a loan.
   * Existing links are loaded once per call, as a persistence context does, so that an id
   * named twice yields one object. The ghost results tell which object carries which row.
   */
  method FromParsedJson(element: JsonElement, links: map<int, LinkRow>, collaterals: map<int, CollateralRow>)
    returns (r: Result<set<LoanCollateral>, Error>, ghost created: seq<LoanCollateral>, ghost session: map<int, LoanCollateral>)
    ensures r.Failure? <==> Assemble(element, links, collaterals).Failure?
    ensures r.Failure? ==> r.error == Assemble(element, links, collaterals).error
    ensures r.Success? ==> |r.value| <= |Entries(element)|
    ensures r.Success? ==> forall o :: o in r.value <==> o in created || o in session.Values
    ensures r.Success? ==> |created| == |Assemble(element, links, collaterals).value.created|
    ensures r.Success? ==> forall j :: 0 <= j < |created| ==>
      fresh(created[j]) && created[j].Row() == Assemble(element, links, collaterals).value.created[j]
    ensures r.Success? ==> session.Keys == Assemble(element, links, collaterals).value.updated.Keys
    ensures r.Success? ==> forall k :: k in session ==>
      fresh(session[k]) && session[k].Row() == Assemble(element, links, collaterals).value.updated[k]
    ensures r.Success? ==> Distinct(created, session)
  {
    ghost var a;
    r, a, created, session := AssembleEntries(Entries(element), links, collaterals);
    if r.Success? {
      assert Assemble(element, links, collaterals) == Success(a);
      assert forall j :: 0 <= j < |created| ==> created[j] in r.value;
      assert forall k :: k in session ==> session[k] in session.Values;
    }
  }
}
