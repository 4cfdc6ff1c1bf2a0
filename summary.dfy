/**
 * The header and summary figures of `updateSummary`: the total revenue over
 * all works and the list of distinct clients.
 */
module Summary {
  import opened Seqs
  import opened Works

  /** `reduce((sum, work) => sum + work.price, 0)`. */
  function TotalRevenue(works: seq<WorkRecord>): real {
    if works == [] then 0.0 else TotalRevenue(works[..|works| - 1]) + works[|works| - 1].price
  }

  /** A work's client, as a function value. */
  function ClientOf(): WorkRecord -> string {
    (w: WorkRecord) => w.client
  }

  /** The filter `c => c`: an empty client name is falsy. */
  function NonEmpty(): string -> bool {
    (c: string) => c != ""
  }

  /** `[...new Set(works.map(work => work.client).filter(c => c))]`. */
  function UniqueClients(works: seq<WorkRecord>): seq<string> {
    Distinct(Filter(Map(works, ClientOf()), NonEmpty()))
  }

  /** The set of clients named by some work. */
  ghost function ClientSet(works: seq<WorkRecord>): set<string> {
    set k | 0 <= k < |works| && works[k].client != "" :: works[k].client
  }

  /** The total over two runs of works is the sum of their totals. */
  lemma {:induction false} TotalRevenueAppend(works: seq<WorkRecord>, more: seq<WorkRecord>)
    ensures TotalRevenue(works + more) == TotalRevenue(works) + TotalRevenue(more)
    decreases |more|
  {
    if more == [] {
      assert works + more == works;
    } else {
      var init := more[..|more| - 1];
      var last := more[|more| - 1];
      assert (works + more)[..|works + more| - 1] == works + init;
      assert (works + more)[|works + more| - 1] == last;
      TotalRevenueAppend(works, init);
      assert TotalRevenue(works + more) == TotalRevenue(works + init) + last.price;
      assert TotalRevenue(more) == TotalRevenue(init) + last.price;
    }
  }

  /**
   * The distinct clients are exactly the non-empty client names of the works,
   * each listed once.
   */
  lemma UniqueClientsMembers(works: seq<WorkRecord>)
    ensures NoDuplicates(UniqueClients(works))
    ensures forall c :: c in UniqueClients(works) <==> c in ClientSet(works)
  {
    var names := Map(works, ClientOf());
    MapAt(works, ClientOf());
    FilterMembers(names, NonEmpty());
    DistinctMembers(Filter(names, NonEmpty()));
    forall c | c in ClientSet(works) ensures c in Filter(names, NonEmpty()) {
      var k :| 0 <= k < |works| && works[k].client != "" && works[k].client == c;
      assert names[k] == c;
    }
  }

  /** `totalClients`: the number of distinct non-empty client names. */
  lemma ClientCount(works: seq<WorkRecord>)
    ensures |UniqueClients(works)| == |ClientSet(works)|
  {
    var u := UniqueClients(works);
    UniqueClientsMembers(works);
    DistinctCardinality(u);
    assert (set x | x in u) == ClientSet(works);
  }

  /** Reading one more work adds its client at the end if it is named and new. */
  lemma UniqueClientsSnoc(works: seq<WorkRecord>, w: WorkRecord)
    ensures UniqueClients(works + [w])
         == if w.client == "" || w.client in UniqueClients(works) then UniqueClients(works)
            else UniqueClients(works) + [w.client]
  {
    var names := Map(works, ClientOf());
    MapSnoc(works, w, ClientOf());
    FilterAppend(names, [w.client], NonEmpty());
    assert Filter([w.client], NonEmpty()) == if w.client != "" then [w.client] else [] by {
      assert [w.client][..0] == [];
    }
    var kept := Filter(names, NonEmpty());
    if w.client == "" {
      assert kept + [] == kept;
    } else {
      DistinctSnoc(kept, w.client);
    }
  }

  /** There are no clients exactly when every work's client is empty. */
  lemma NoClients(works: seq<WorkRecord>)
    ensures UniqueClients(works) == [] <==> forall k :: 0 <= k < |works| ==> works[k].client == ""
  {
    UniqueClientsMembers(works);
    if UniqueClients(works) != [] {
      var c := UniqueClients(works)[0];
      assert c in ClientSet(works);
      var k :| 0 <= k < |works| && works[k].client != "" && works[k].client == c;
    } else {
      forall k | 0 <= k < |works| ensures works[k].client == "" {
        ClientListed(works, k);
      }
    }
  }

  /** A work that names a client has that client listed. */
  lemma ClientListed(works: seq<WorkRecord>, k: nat)
    requires k < |works|
    ensures works[k].client != "" ==> works[k].client in UniqueClients(works)
  {
    UniqueClientsMembers(works);
    assert works[k].client != "" ==> works[k].client in ClientSet(works);
  }
}
