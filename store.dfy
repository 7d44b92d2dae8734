/** The hosted database as the services see it: one object whose fields are
    the tables, and the upsert-by-id write of the `content_items` table. */
module Store {
  import opened Types

  /** The storage calls a service makes. A run of a service is given the set
      of calls that return an error in that run. */
  datatype Query =
    | SourcesRead | ContentRead | ContentSave
    | TrendsRead | TrendsSave
    | UserRead | SamplesRead
    | NewsletterRead | NewsletterSave | NewsletterUpdate | StatsRead

  class Database {
    var sources: seq<Source>
    var contentItems: seq<ContentItem>
    var trends: seq<StoredTrend>
    var users: seq<User>
    var writingSamples: seq<WritingSample>
    var newsletters: seq<Newsletter>
    var feedback: seq<Feedback>
    /** Source of the identifiers the database assigns to inserted rows. */
    var nextId: nat

    /** `content_items.id` is the primary key. */
    ghost predicate Valid()
      reads this
    {
      UniqueIds(contentItems)
    }

    constructor ()
      ensures Valid()
      ensures sources == [] && contentItems == [] && trends == [] && users == []
      ensures writingSamples == [] && newsletters == [] && feedback == [] && nextId == 0
    {
      sources, contentItems, trends, users := [], [], [], [];
      writingSamples, newsletters, feedback, nextId := [], [], [], 0;
    }
  }

  predicate UniqueIds(items: seq<ContentItem>) {
    forall i, j | 0 <= i < j < |items| :: items[i].id != items[j].id
  }

  function Ids(items: seq<ContentItem>): set<string> {
    set x | x in items :: x.id
  }

  /** Position of the row whose id is `id`, if any. */
  function IndexOfId(items: seq<ContentItem>, id: string): (r: Wrappers.Option<nat>)
    ensures r.Some? ==> r.value < |items| && items[r.value].id == id
    ensures r.None? ==> id !in Ids(items)
  {
    if items == [] then Wrappers.None
    else if items[|items| - 1].id == id then Wrappers.Some(|items| - 1)
    else
      var r := IndexOfId(items[..|items| - 1], id);
      assert items == items[..|items| - 1] + [items[|items| - 1]];
      r
  }

  /** Upsert of one row keyed by `id`: an existing row with that id is
      replaced in place, otherwise the row is appended. */
  function Upsert(table: seq<ContentItem>, item: ContentItem): (r: seq<ContentItem>)
    ensures Ids(r) == Ids(table) + {item.id}
    ensures UniqueIds(table) ==> UniqueIds(r)
    ensures item in r
    ensures forall x | x in table && x.id != item.id :: x in r
    ensures item.id in Ids(table) ==> |r| == |table|
    ensures item.id !in Ids(table) ==> |r| == |table| + 1
  {
    match IndexOfId(table, item.id)
    case Some(i) =>
      var r := table[i := item];
      assert r[i] == item;
      assert forall x | x in table && x.id != item.id :: x in r by {
        forall x | x in table && x.id != item.id ensures x in r {
          var k :| 0 <= k < |table| && table[k] == x;
          assert r[k] == x;
        }
      }
      assert Ids(r) == Ids(table) + {item.id} by {
        forall x | x in Ids(table) ensures x in Ids(r) {
          var y :| y in table && y.id == x;
          var k :| 0 <= k < |table| && table[k] == y;
          if k == i { assert r[i].id == x; } else { assert r[k] == y; }
        }
      }
      r
    case None =>
      table + [item]
  }

  /** `upsert(batch, { onConflict: 'id' })`: the rows in batch order, a later
      row with an id overwriting an earlier one. */
  function UpsertAll(table: seq<ContentItem>, batch: seq<ContentItem>): (r: seq<ContentItem>)
    ensures UniqueIds(table) ==> UniqueIds(r)
    decreases |batch|
  {
    if batch == [] then table else UpsertAll(Upsert(table, batch[0]), batch[1..])
  }

  lemma IdsOfCons(items: seq<ContentItem>)
    requires items != []
    ensures Ids(items) == {items[0].id} + Ids(items[1..])
  {
    assert items == [items[0]] + items[1..];
  }

  /** After the upsert the table holds exactly the old ids and the batch's ids. */
  lemma {:induction false} UpsertAllIds(table: seq<ContentItem>, batch: seq<ContentItem>)
    ensures Ids(UpsertAll(table, batch)) == Ids(table) + Ids(batch)
    decreases |batch|
  {
    if batch != [] {
      UpsertAllIds(Upsert(table, batch[0]), batch[1..]);
      IdsOfCons(batch);
    }
  }

  /** A batch whose ids are all stored already adds no row. */
  lemma {:induction false} UpsertAllKnownIds(table: seq<ContentItem>, batch: seq<ContentItem>)
    requires Ids(batch) <= Ids(table)
    ensures |UpsertAll(table, batch)| == |table|
    decreases |batch|
  {
    if batch != [] {
      assert batch[0].id in Ids(table);
      assert Ids(batch[1..]) <= Ids(batch);
      UpsertAllKnownIds(Upsert(table, batch[0]), batch[1..]);
    }
  }

  /** Idempotent ingestion: saving the same batch a second time creates no new
      row and no new id. */
  lemma UpsertAgainAddsNothing(table: seq<ContentItem>, batch: seq<ContentItem>)
    ensures var once := UpsertAll(table, batch);
      && |UpsertAll(once, batch)| == |once|
      && Ids(UpsertAll(once, batch)) == Ids(once)
  {
    var once := UpsertAll(table, batch);
    UpsertAllIds(table, batch);
    UpsertAllIds(once, batch);
    UpsertAllKnownIds(once, batch);
  }

  /** A stored row whose id the batch does not mention survives the upsert. */
  lemma {:induction false} UpsertAllKeeps(table: seq<ContentItem>, batch: seq<ContentItem>, x: ContentItem)
    requires x in table && x.id !in Ids(batch)
    ensures x in UpsertAll(table, batch)
    decreases |batch|
  {
    if batch != [] {
      assert batch[0] in batch;
      assert Ids(batch[1..]) <= Ids(batch);
      UpsertAllKeeps(Upsert(table, batch[0]), batch[1..], x);
    }
  }

  /** Last write wins: a batch row that no later row of the batch overrides
      is stored as given. */
  lemma {:induction false} UpsertAllLastWins(table: seq<ContentItem>, batch: seq<ContentItem>, k: nat)
    requires k < |batch|
    requires forall j | k < j < |batch| :: batch[j].id != batch[k].id
    ensures batch[k] in UpsertAll(table, batch)
    decreases |batch|
  {
    var rest := batch[1..];
    if k == 0 {
      assert batch[0].id !in Ids(rest) by {
        forall y | y in rest ensures y.id != batch[0].id {
          var j :| 0 <= j < |rest| && rest[j] == y;
          assert batch[j + 1] == y;
        }
      }
      UpsertAllKeeps(Upsert(table, batch[0]), rest, batch[0]);
    } else {
      assert rest[k - 1] == batch[k];
      assert forall j | k - 1 < j < |rest| :: rest[j] == batch[j + 1];
      UpsertAllLastWins(Upsert(table, batch[0]), rest, k - 1);
    }
  }

  /** How the database answers the batch upsert as the fetch loop issues it.
      PostgreSQL's INSERT ... ON CONFLICT DO UPDATE refuses a command that
      proposes the same key twice, so a batch with a repeated id is rejected
      whole (`None`) and nothing of it is stored. */
  function SaveAsWritten(table: seq<ContentItem>, batch: seq<ContentItem>): (r: Wrappers.Option<seq<ContentItem>>)
    ensures r.Some? <==> UniqueIds(batch)
    ensures r.Some? ==> Ids(r.value) == Ids(table) + Ids(batch)
  {
    UpsertAllIds(table, batch);
    if UniqueIds(batch) then Wrappers.Some(UpsertAll(table, batch)) else Wrappers.None
  }
}
