/** The SQLite collection: a records table, its unique index and a full-text table kept in step. */
module SqliteCollections {
  import opened Wrappers
  import opened Envelopes
  import opened Replay
  import opened CurrentView
  import opened Ordering

  datatype Row = Row(key: Key, version: Version, envelope: Envelope, text: string, updatedAt: int)

  /** A text to search for: words that some texts match, or input without any word. */
  datatype SearchText = Blank | NoWords | Words(matches: string -> bool)

  datatype QueryRequest = QueryRequest(
    text: Option<SearchText>, limit: nat, offset: nat, source: Option<string>, stream: Option<string>)

  predicate Selects(request: QueryRequest, v: Version) {
    && (request.source.Some? ==> v.source == request.source.value)
    && (request.stream.Some? ==> v.stream == request.stream.value)
  }

  /** Whether the naive scan of the current view keeps a version whose words are `text`. */
  predicate Hit(request: QueryRequest, v: Version, text: string) {
    && Selects(request, v)
    && (request.text.Some? && request.text.value.Words? ==> request.text.value.matches(text))
  }

  /** ORDER BY score, rowid: any ranking of the matches, ties by row id. */
  function ByScore(score: nat -> int): (nat, nat) -> bool {
    (a: nat, b: nat) => score(a) < score(b) || (score(a) == score(b) && a < b)
  }

  /** ORDER BY updated_at DESC, rowid DESC. */
  function ByAge(records: map<nat, Row>): (nat, nat) -> bool {
    (a: nat, b: nat) => AgeOf(records, a) > AgeOf(records, b) || (AgeOf(records, a) == AgeOf(records, b) && a > b)
  }

  function AgeOf(records: map<nat, Row>, r: nat): int {
    if r in records then records[r].updatedAt else 0
  }

  lemma OrdersAreTotal(score: nat -> int, records: map<nat, Row>)
    ensures TotalOrder(ByScore(score)) && TotalOrder(ByAge(records))
  {
  }

  datatype QueryResult = Hits(hits: seq<Envelope>, total: nat) | NothingSearchable

  predicate RowOk(words: Version -> string, row: Row) {
    && row.key == KeyOf(row.version) && !row.version.operation.Delete?
    && row.envelope.version == row.version && row.text == words(row.version)
  }

  predicate IndexOk(records: map<nat, Row>, index: map<Key, nat>) {
    && (forall r :: r in records ==> records[r].key in index && index[records[r].key] == r)
    && (forall k :: k in index ==> index[k] in records && records[index[k]].key == k)
  }

  /** The text table has exactly the records' ids and texts, and keys are unique. */
  predicate TablesOk(words: Version -> string, records: map<nat, Row>, index: map<Key, nat>, fts: map<nat, string>) {
    && fts.Keys == records.Keys
    && (forall r :: r in records ==> RowOk(words, records[r]) && fts[r] == records[r].text)
    && IndexOk(records, index)
  }

  function ViewOf(records: map<nat, Row>, index: map<Key, nat>): View
    requires IndexOk(records, index)
  {
    map k | k in index :: records[index[k]].version
  }

  /** The row ids of some keys. */
  function RowIds(keys: set<Key>, index: map<Key, nat>): set<nat>
    requires forall k :: k in keys ==> k in index
  {
    set k | k in keys :: index[k]
  }

  lemma RowInserted(records: map<nat, Row>, index: map<Key, nat>, r: nat, row: Row)
    requires IndexOk(records, index) && r !in records && row.key !in index
    ensures var records', index' := records[r := row], index[row.key := r];
            IndexOk(records', index') && ViewOf(records', index') == ViewOf(records, index)[row.key := row.version]
  {
  }

  lemma RowUpdated(records: map<nat, Row>, index: map<Key, nat>, r: nat, row: Row)
    requires IndexOk(records, index) && r in records && row.key == records[r].key
    ensures var records' := records[r := row];
            IndexOk(records', index) && ViewOf(records', index) == ViewOf(records, index)[row.key := row.version]
  {
  }

  lemma RowDeleted(records: map<nat, Row>, index: map<Key, nat>, r: nat)
    requires IndexOk(records, index) && r in records
    ensures var records', index' := records - {r}, index - {records[r].key};
            IndexOk(records', index') && ViewOf(records', index') == ViewOf(records, index) - {records[r].key}
  {
  }

  /** The row is the current one of the version's logical key. */
  predicate RowOf(row: Row, v: Version) {
    row.version.source == v.source && row.version.stream == v.stream && row.version.id == v.id
  }

  /**
   What one envelope does to the rows: a delete removes its key's row; a version
   already there leaves its row as it is; any other becomes its key's row, dated
   now, under the row id the key had. No other row moves.
   */
  ghost predicate RowsWritten(before: map<nat, Row>, after: map<nat, Row>, envelope: Envelope, now: int) {
    forall r {:trigger RowWritten(before, after, envelope, now, r)} :: RowWritten(before, after, envelope, now, r)
  }

  predicate RowWritten(before: map<nat, Row>, after: map<nat, Row>, envelope: Envelope, now: int, r: nat) {
    var v := envelope.version;
    var had, has := r in before && RowOf(before[r], v), r in after && RowOf(after[r], v);
    && (!had && !has ==> (r in before <==> r in after) && (r in before ==> after[r] == before[r]))
    && (v.operation.Delete? ==> !has)
    && (!v.operation.Delete? && had ==> has)
    && (has && had && before[r].version == v ==> after[r] == before[r])
    && (has && !(had && before[r].version == v) ==>
          after[r].version == v && after[r].envelope == envelope && after[r].updatedAt == now)
    && (has && !had ==> r !in before)
    && (had && !has ==> r !in after)
  }

  /** A batch leaves rows of keys it does not name alone; any row that changed holds an envelope of it, dated now. */
  ghost predicate OldOrNow(before: map<nat, Row>, after: map<nat, Row>, batch: seq<Envelope>, now: int) {
    forall r {:trigger OldOrNowAt(before, after, batch, now, r)} :: OldOrNowAt(before, after, batch, now, r)
  }

  ghost predicate OldOrNowAt(before: map<nat, Row>, after: map<nat, Row>, batch: seq<Envelope>, now: int, r: nat) {
    && (r in before && (forall e :: e in batch ==> !RowOf(before[r], e.version)) ==>
          r in after && after[r] == before[r])
    && (r in after && !(r in before && after[r] == before[r]) ==>
          after[r].updatedAt == now && after[r].envelope in batch)
  }

  lemma NothingWritten(rows: map<nat, Row>, now: int)
    ensures OldOrNow(rows, rows, [], now)
  {
    forall r ensures OldOrNowAt(rows, rows, [], now, r) {
    }
  }

  lemma OldOrNowNext(before: map<nat, Row>, mid: map<nat, Row>, after: map<nat, Row>, batch: seq<Envelope>,
                     envelope: Envelope, now: int)
    requires OldOrNow(before, mid, batch, now) && RowsWritten(mid, after, envelope, now)
    ensures OldOrNow(before, after, batch + [envelope], now)
  {
    assert envelope in batch + [envelope] && forall e :: e in batch ==> e in batch + [envelope];
    forall r ensures OldOrNowAt(before, after, batch + [envelope], now, r) {
      assert OldOrNowAt(before, mid, batch, now, r) && RowWritten(mid, after, envelope, now, r);
    }
  }

  class SqliteCollection {
    /** The words indexed for a version; observations and provenance are not among them. */
    const searchableText: Version -> string
    var records: map<nat, Row>
    var uniqueIndex: map<Key, nat>
    var fts: map<nat, string>

    ghost predicate Valid()
      reads this
    {
      TablesOk(searchableText, records, uniqueIndex, fts)
    }

    /** The current view the tables represent. */
    ghost function Contents(): View
      reads this
      requires Valid()
    {
      ViewOf(records, uniqueIndex)
    }

    constructor (searchableText: Version -> string)
      ensures Valid() && Contents() == map[]
    {
      this.searchableText := searchableText;
      records, uniqueIndex, fts := map[], map[], map[];
    }

    /** A row id above every one in use. */
    method NewRowid() returns (rowid: nat)
      ensures rowid !in records
    {
      var rest := records.Keys;
      rowid := 0;
      while rest != {}
        invariant rest <= records.Keys && forall r :: r in records && r !in rest ==> r < rowid
        decreases rest
      {
        var r :| r in rest;
        if r >= rowid {
          rowid := r + 1;
        }
        rest := rest - {r};
      }
    }

    method DeleteRow(rowid: nat)
      requires Valid() && rowid in records
      modifies this
      ensures Valid() && Contents() == old(Contents()) - {old(records)[rowid].key}
      ensures records == old(records) - {rowid}
    {
      RowDeleted(records, uniqueIndex, rowid);
      fts := fts - {rowid};
      uniqueIndex := uniqueIndex - {records[rowid].key};
      records := records - {rowid};
    }

    method InsertRow(row: Row) returns (rowid: nat)
      requires Valid() && RowOk(searchableText, row) && row.key !in uniqueIndex
      modifies this
      ensures Valid() && Contents() == old(Contents())[row.key := row.version]
      ensures rowid !in old(records) && records == old(records)[rowid := row]
    {
      rowid := NewRowid();
      RowInserted(records, uniqueIndex, rowid, row);
      records := records[rowid := row];
      uniqueIndex := uniqueIndex[row.key := rowid];
      fts := fts[rowid := row.text];
    }

    method UpdateRow(rowid: nat, row: Row)
      requires Valid() && RowOk(searchableText, row) && rowid in records && records[rowid].key == row.key
      modifies this
      ensures Valid() && Contents() == old(Contents())[row.key := row.version]
      ensures records == old(records)[rowid := row]
    {
      RowUpdated(records, uniqueIndex, rowid, row);
      fts := fts - {rowid};
      records := records[rowid := row];
      fts := fts[rowid := row.text];
    }

    /** The rows of a key are those the unique index finds. */
    lemma KeysAre(v: Version)
      requires Valid()
      ensures forall r :: r in records && RowOf(records[r], v) ==>
                KeyOf(v) in uniqueIndex && uniqueIndex[KeyOf(v)] == r
      ensures KeyOf(v) in uniqueIndex ==> RowOf(records[uniqueIndex[KeyOf(v)]], v)
    {
    }

    method WriteOne(envelope: Envelope, now: int) returns (changed: nat)
      requires Valid()
      modifies this
      ensures Valid() && RowsWritten(old(records), records, envelope, now)
      ensures Overwrite(old(Contents()), envelope.version) == Some(Written(Contents(), changed))
    {
      var v, key := envelope.version, KeyOf(envelope.version);
      var existing := if key in uniqueIndex then Some(uniqueIndex[key]) else None;
      KeysAre(v);
      ghost var before := records;
      changed := 1;
      if v.operation.Delete? && existing.None? {
        changed := 0;
      } else if v.operation.Delete? {
        DeleteRow(existing.value);
      } else if existing.Some? && records[existing.value].version == v {
        changed := 0;
      } else {
        var row := Row(key, v, envelope, searchableText(v), now);
        if existing.None? {
          var _ := InsertRow(row);
        } else {
          UpdateRow(existing.value, row);
        }
      }
      forall r ensures RowWritten(before, records, envelope, now, r) {
      }
    }

    /** One more envelope of a batch that began at `origin`. */
    method WriteNext(envelope: Envelope, now: int, applied: int, ghost origin: View, ghost done: seq<Version>,
                     ghost start: map<nat, Row>, ghost written: seq<Envelope>)
      returns (total: int)
      requires OldOrNow(start, records, written, now)
      requires Valid() && Fold(Overwrite, origin, done) == Some(Written(Contents(), applied))
      modifies this
      ensures Valid() && Fold(Overwrite, origin, done + [envelope.version]) == Some(Written(Contents(), total))
      ensures OldOrNow(start, records, written + [envelope], now)
    {
      FoldOneMore(Overwrite, origin, done, envelope.version);
      ghost var before := records;
      var changed := WriteOne(envelope, now);
      OldOrNowNext(start, before, records, written, envelope, now);
      total := applied + changed;
    }

    /** One write transaction: the records table refines the last-writer-wins view. */
    method WriteSync(batch: seq<Envelope>, now: int) returns (applied: int)
      requires Valid()
      modifies this
      ensures Valid()
      ensures SqliteView().write(old(Contents()), Versions(batch)) == Some(Written(Contents(), applied))
      ensures OldOrNow(old(records), records, batch, now)
    {
      applied := 0;
      ghost var versions, origin := Versions(batch), Contents();
      NothingWritten(records, now);
      assert batch[..0] == [];
      for i := 0 to |batch|
        invariant Valid()
        invariant Fold(Overwrite, origin, versions[..i]) == Some(Written(Contents(), applied))
        invariant OldOrNow(old(records), records, batch[..i], now)
      {
        assert versions[..i + 1] == versions[..i] + [batch[i].version];
        assert batch[..i + 1] == batch[..i] + [batch[i]];
        applied := WriteNext(batch[i], now, applied, origin, versions[..i], old(records), batch[..i]);
      }
      assert batch[..|batch|] == batch;
      assert versions[..|batch|] == versions;
    }

    method Get(key: Key) returns (found: Option<Envelope>)
      requires Valid()
      ensures found.Some? <==> key in Contents()
      ensures found.Some? ==> found.value.version == Contents()[key]
    {
      found := if key in uniqueIndex then Some(records[uniqueIndex[key]].envelope) else None;
    }

    /** The rows a naive scan of the current view would keep. */
    ghost function Scan(request: QueryRequest): set<Key>
      reads this
      requires Valid()
    {
      set k | k in Contents() && Hit(request, Contents()[k], searchableText(Contents()[k]))
    }

    /** What the request asks of a row: its source and stream, and that its words match. */
    ghost predicate Wanted(request: QueryRequest, row: Row)
    {
      && (request.source.None? || row.version.source == request.source.value)
      && (request.stream.None? || row.version.stream == request.stream.value)
      && match request.text
         case Some(Words(matches)) => matches(searchableText(row.version))
         case _ => true
    }

    /** The order of two rows: by score when words are searched for, else the newest first; then by row id. */
    ghost predicate Precedes(request: QueryRequest, score: nat -> int, a: nat, b: nat)
      reads this
      requires a in records && b in records
    {
      if request.text.Some? && !request.text.value.Blank? then score(a) < score(b) || (score(a) == score(b) && a < b)
      else records[a].updatedAt > records[b].updatedAt || (records[a].updatedAt == records[b].updatedAt && a > b)
    }

    /** A query's listing has exactly the wanted rows, each once, in the order asked for. */
    lemma ListingIs(request: QueryRequest, score: nat -> int, listing: seq<nat>)
      requires Valid() && ListsScan(request, score, listing)
      ensures forall r :: r in listing <==> r in records && Wanted(request, records[r])
      ensures forall i, j :: 0 <= i < j < |listing| ==> Precedes(request, score, listing[i], listing[j])
    {
      forall r ensures r in RowIds(Scan(request), uniqueIndex) <==> r in records && Wanted(request, records[r]) {
        if r in records && Wanted(request, records[r]) {
          assert records[r].key in Scan(request) && uniqueIndex[records[r].key] == r;
        }
      }
      forall i | 0 <= i < |listing| ensures listing[i] in records {
        assert listing[i] in listing;
      }
    }

    /** The ids the query's WHERE clause keeps: through the text index when there are words to match. */
    method Select(request: QueryRequest) returns (matching: set<nat>)
      requires Valid() && request.text != Some(NoWords)
      ensures forall r :: r in matching <==>
          r in records && Hit(request, records[r].version, searchableText(records[r].version))
    {
      if request.text.Some? && !request.text.value.Blank? {
        var matches := request.text.value.matches;
        matching := set r | r in fts && matches(fts[r]) && r in records && Selects(request, records[r].version);
      } else {
        matching := set r | r in records && Selects(request, records[r].version);
      }
    }

    function OrderOf(request: QueryRequest, score: nat -> int): (nat, nat) -> bool
      reads this
    {
      if request.text.Some? && !request.text.value.Blank? then ByScore(score) else ByAge(records)
    }

    method Fetch(ids: seq<nat>) returns (hits: seq<Envelope>)
      requires forall i :: 0 <= i < |ids| ==> ids[i] in records
      ensures |hits| == |ids| && forall i :: 0 <= i < |ids| ==> hits[i] == records[ids[i]].envelope
    {
      hits := [];
      for i := 0 to |ids|
        invariant |hits| == i && forall j :: 0 <= j < i ==> hits[j] == records[ids[j]].envelope
      {
        hits := hits + [records[ids[i]].envelope];
      }
    }

    /** `listing` is the naive scan's rows in the order of the query. */
    ghost predicate ListsScan(request: QueryRequest, score: nat -> int, listing: seq<nat>)
      reads this
      requires Valid()
    {
      Lists(OrderOf(request, score), listing, RowIds(Scan(request), uniqueIndex))
    }

    /** The whole ordered result, before LIMIT and OFFSET: a listing of the naive scan. */
    method ListAll(request: QueryRequest, score: nat -> int) returns (ids: seq<nat>)
      requires Valid() && request.text != Some(NoWords)
      ensures |ids| == |Scan(request)|
      ensures ListsScan(request, score, ids)
      ensures forall r :: r in ids ==> r in records
    {
      var matching := Select(request);
      MatchingIsScan(request, matching);
      OrdersAreTotal(score, records);
      ids := OrderBy(matching, OrderOf(request, score));
    }

    /**
     A query through the text index (or the plain table) sees exactly the naive
     scan: its count, and the requested page of its one listing.
     */
    method Query(request: QueryRequest, score: nat -> int) returns (result: QueryResult, ghost listing: seq<nat>)
      requires Valid()
      ensures result.NothingSearchable? <==> request.text == Some(NoWords)
      ensures result.Hits? ==> result.total == |Scan(request)|
      ensures result.Hits? ==> ListsScan(request, score, listing)
      ensures result.Hits? ==> Shows(result.hits, Page(listing, request.offset, request.limit))
    {
      listing := [];
      if request.text.Some? && request.text.value.NoWords? {
        return NothingSearchable, [];
      }
      var ids := ListAll(request, score);
      listing := ids;
      var hits := Fetch(Page(ids, request.offset, request.limit));
      result := Hits(hits, |ids|);
    }

    /** `hits` are the envelopes of the listed rows, in their order. */
    ghost predicate Shows(hits: seq<Envelope>, listing: seq<nat>)
      reads this
    {
      |hits| == |listing| && forall i :: 0 <= i < |listing| ==>
        listing[i] in records && hits[i] == records[listing[i]].envelope
    }

    lemma ShowsMore(hits: seq<Envelope>, listing: seq<nat>, moreHits: seq<Envelope>, more: seq<nat>)
      requires Shows(hits, listing) && Shows(moreHits, more)
      ensures Shows(hits + moreHits, listing + more)
    {
    }

    /** The queries of one paging caller see one listing. */
    lemma SameListing(request: QueryRequest, offset: nat, score: nat -> int, a: seq<nat>, b: seq<nat>)
      requires Valid()
      requires ListsScan(request, score, a) && ListsScan(request.(offset := offset), score, b)
      ensures a == b
    {
      assert Scan(request) == Scan(request.(offset := offset));
      OrdersAreTotal(score, records);
      ListingUnique(OrderOf(request, score), a, b, RowIds(Scan(request), uniqueIndex));
    }

    /** The next page of a listing that earlier queries have seen. */
    method QueryPage(request: QueryRequest, offset: nat, score: nat -> int, ghost listing: seq<nat>)
      returns (hits: seq<Envelope>)
      requires Valid() && request.text != Some(NoWords)
      requires ListsScan(request, score, listing)
      ensures Shows(hits, Page(listing, offset, request.limit))
    {
      var result, seen := Query(request.(offset := offset), score);
      SameListing(request, offset, score, listing, seen);
      hits := result.hits;
    }

    /**
     A caller that asks for page after page, at offsets 0, limit, 2 * limit and
     so on, gets the naive scan in its one order, without a gap or a repeat.
     */
    method QueryPages(request: QueryRequest, score: nat -> int) returns (hits: seq<Envelope>, ghost listing: seq<nat>)
      requires Valid() && request.limit > 0 && request.offset == 0 && request.text != Some(NoWords)
      ensures ListsScan(request, score, listing)
      ensures |listing| == |Scan(request)| && Shows(hits, listing)
    {
      var first;
      first, listing := Query(request, score);
      hits := first.hits;
      var offset := request.limit;
      ListingSize(request, score, listing);
      while offset < first.total
        invariant Shows(hits, Page(listing, 0, offset))
        decreases first.total - offset
      {
        var more := QueryPage(request, offset, score, listing);
        ShowsMore(hits, Page(listing, 0, offset), more, Page(listing, offset, request.limit));
        PageJoins(listing, offset, request.limit);
        hits := hits + more;
        offset := offset + request.limit;
      }
      PageJoins(listing, offset, 0);
    }

    lemma ListingSize(request: QueryRequest, score: nat -> int, listing: seq<nat>)
      requires Valid() && ListsScan(request, score, listing)
      ensures |listing| == |Scan(request)|
    {
      OrdersAreTotal(score, records);
      ImageSize(Scan(request), uniqueIndex);
      ListsSize(OrderOf(request, score), listing, RowIds(Scan(request), uniqueIndex));
    }

    /** Row ids and keys correspond one to one, so the two scans have one count. */
    lemma MatchingIsScan(request: QueryRequest, matching: set<nat>)
      requires Valid()
      requires forall r :: r in matching <==>
          r in records && Hit(request, records[r].version, searchableText(records[r].version))
      ensures matching == RowIds(Scan(request), uniqueIndex)
      ensures |matching| == |Scan(request)|
    {
      var keys := Scan(request);
      forall r ensures r in matching <==> r in RowIds(keys, uniqueIndex) {
        if r in matching {
          assert records[r].key in keys && uniqueIndex[records[r].key] == r;
        }
      }
      ImageSize(keys, uniqueIndex);
    }
  }

  lemma {:induction false} ImageSize(keys: set<Key>, index: map<Key, nat>)
    requires forall k :: k in keys ==> k in index
    requires forall j, k :: j in keys && k in keys && index[j] == index[k] ==> j == k
    ensures |RowIds(keys, index)| == |keys|
    decreases keys
  {
    if keys == {} {
      assert RowIds(keys, index) == {};
    } else {
      var k :| k in keys;
      var rest := keys - {k};
      ImageSize(rest, index);
      assert RowIds(keys, index) == RowIds(rest, index) + {index[k]};
      assert index[k] !in RowIds(rest, index);
    }
  }
}
