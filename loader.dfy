/**
 The read path of the index route: resolve the session's user, fetch that
 user's financial records and add the derived transfer amount to each.
 */
module Loader {
  import opened Models

  /** A stored record as the store returns it: the document id with its fields. */
  datatype Document = Document(id: ObjectId, record: FinancialRecord)

  /** A record as the loader returns it: the stored fields plus `transferAmount`. */
  datatype RecordView = RecordView(
    id: ObjectId, income: real, percentage: real, name: string, user: ObjectId,
    transferAmount: real)

  /** The loader's answer: whether a user is logged in, and that user's records. */
  datatype LoaderData = LoaderData(loggedIn: bool, financialRecords: seq<RecordView>)

  predicate NoDuplicates(ids: seq<ObjectId>) {
    forall i, j :: 0 <= i < j < |ids| ==> ids[i] != ids[j]
  }

  /** `order` is the store's enumeration of the records collection: every stored
      id exactly once, in whatever order the store chooses. */
  predicate IsScanOf(order: seq<ObjectId>, records: map<ObjectId, FinancialRecord>) {
    && (forall i :: 0 <= i < |order| ==> order[i] in records)
    && (forall id :: id in records ==> id in order)
    && NoDuplicates(order)
  }

  /** The query for every record whose `user` is `uid`, scanning in `order`. */
  function FindByUser(records: map<ObjectId, FinancialRecord>, uid: ObjectId, order: seq<ObjectId>)
    : (docs: seq<Document>)
    ensures |docs| <= |order|
  {
    if order == [] then []
    else
      var rest := FindByUser(records, uid, order[1..]);
      if order[0] in records && records[order[0]].user == uid then
        [Document(order[0], records[order[0]])] + rest
      else rest
  }

  ghost predicate FoundOnlyOwned(docs: seq<Document>, records: map<ObjectId, FinancialRecord>, uid: ObjectId, order: seq<ObjectId>) {
    forall i :: 0 <= i < |docs| ==>
      && docs[i].id in records && docs[i].record == records[docs[i].id]
      && docs[i].record.user == uid && docs[i].id in order
  }

  ghost predicate FoundAllOwned(docs: seq<Document>, records: map<ObjectId, FinancialRecord>, uid: ObjectId, order: seq<ObjectId>) {
    forall k :: 0 <= k < |order| && order[k] in records && records[order[k]].user == uid ==>
      exists i :: 0 <= i < |docs| && docs[i].id == order[k]
  }

  ghost predicate FoundOnce(docs: seq<Document>) {
    forall i, j :: 0 <= i < j < |docs| ==> docs[i].id != docs[j].id
  }

  /** Everything found is a stored record owned by `uid`, under an id of the scan. */
  lemma {:induction false} FindByUserSound(records: map<ObjectId, FinancialRecord>, uid: ObjectId, order: seq<ObjectId>)
    ensures FoundOnlyOwned(FindByUser(records, uid, order), records, uid, order)
  {
    if order != [] {
      var tail := order[1..];
      FindByUserSound(records, uid, tail);
      var rest := FindByUser(records, uid, tail);
      var docs := FindByUser(records, uid, order);
      assert docs == if order[0] in records && records[order[0]].user == uid
                     then [Document(order[0], records[order[0]])] + rest else rest;
      forall i | 0 <= i < |docs|
        ensures && docs[i].id in records && docs[i].record == records[docs[i].id]
                && docs[i].record.user == uid && docs[i].id in order
      {
        if order[0] in records && records[order[0]].user == uid {
          if i > 0 {
            assert docs[i] == rest[i - 1];
            var k :| 0 <= k < |tail| && tail[k] == docs[i].id;
            assert order[k + 1] == tail[k];
          }
        } else {
          var k :| 0 <= k < |tail| && tail[k] == docs[i].id;
          assert order[k + 1] == tail[k];
        }
      }
    }
  }

  /** Every scanned record owned by `uid` is found. */
  lemma {:induction false} FindByUserComplete(records: map<ObjectId, FinancialRecord>, uid: ObjectId, order: seq<ObjectId>)
    ensures FoundAllOwned(FindByUser(records, uid, order), records, uid, order)
  {
    if order != [] {
      var tail := order[1..];
      FindByUserComplete(records, uid, tail);
      var rest := FindByUser(records, uid, tail);
      var docs := FindByUser(records, uid, order);
      assert docs == if order[0] in records && records[order[0]].user == uid
                     then [Document(order[0], records[order[0]])] + rest else rest;
      forall k | 0 <= k < |order| && order[k] in records && records[order[k]].user == uid
        ensures exists i :: 0 <= i < |docs| && docs[i].id == order[k]
      {
        if order[0] in records && records[order[0]].user == uid {
          if k == 0 {
            assert docs[0].id == order[0];
          } else {
            assert order[k] == tail[k - 1];
            var i :| 0 <= i < |rest| && rest[i].id == tail[k - 1];
            assert docs[i + 1] == rest[i];
          }
        } else {
          assert order[k] == tail[k - 1];
        }
      }
    }
  }

  /** Scanning each id once finds each record once. */
  lemma {:induction false} FindByUserDistinct(records: map<ObjectId, FinancialRecord>, uid: ObjectId, order: seq<ObjectId>)
    requires NoDuplicates(order)
    ensures FoundOnce(FindByUser(records, uid, order))
  {
    if order != [] {
      var tail := order[1..];
      assert NoDuplicates(tail) by {
        forall i, j | 0 <= i < j < |tail| ensures tail[i] != tail[j] {
          assert tail[i] == order[i + 1] && tail[j] == order[j + 1];
        }
      }
      FindByUserDistinct(records, uid, tail);
      var rest := FindByUser(records, uid, tail);
      if order[0] in records && records[order[0]].user == uid {
        FindByUserSound(records, uid, tail);
        var docs := FindByUser(records, uid, order);
        assert docs == [Document(order[0], records[order[0]])] + rest;
        forall j | 1 <= j < |docs| ensures docs[0].id != docs[j].id {
          assert docs[j] == rest[j - 1];
          var k :| 0 <= k < |tail| && tail[k] == rest[j - 1].id;
          assert order[k + 1] == tail[k];
        }
        forall i, j | 1 <= i < j < |docs| ensures docs[i].id != docs[j].id {
          assert docs[i] == rest[i - 1] && docs[j] == rest[j - 1];
        }
      }
    }
  }

  /** The derived field: `percentage` percent of `income`. */
  function TransferAmount(income: real, percentage: real): real {
    income * percentage / 100.0
  }

  /** Each document keeps its stored fields and gains its transfer amount. */
  function AddTransferAmounts(docs: seq<Document>): (views: seq<RecordView>)
    ensures |views| == |docs|
    ensures forall i :: 0 <= i < |docs| ==>
              && views[i].id == docs[i].id
              && views[i].income == docs[i].record.income
              && views[i].percentage == docs[i].record.percentage
              && views[i].name == docs[i].record.name
              && views[i].user == docs[i].record.user
              && views[i].transferAmount == TransferAmount(docs[i].record.income, docs[i].record.percentage)
  {
    if docs == [] then []
    else
      var d := docs[0];
      [RecordView(d.id, d.record.income, d.record.percentage, d.record.name, d.record.user,
                  TransferAmount(d.record.income, d.record.percentage))]
      + AddTransferAmounts(docs[1..])
  }

  /** `views` lists exactly the records owned by `uid`, each once, with its stored
      fields and transferAmount = income * percentage / 100. */
  ghost predicate ListsOwnedRecords(views: seq<RecordView>, records: map<ObjectId, FinancialRecord>, uid: ObjectId) {
    && (forall i :: 0 <= i < |views| ==>
          && views[i].id in records
          && records[views[i].id] == FinancialRecord(views[i].income, views[i].percentage, views[i].name, views[i].user)
          && views[i].user == uid
          && views[i].transferAmount == TransferAmount(views[i].income, views[i].percentage))
    && (forall id :: id in records && records[id].user == uid ==>
          exists i :: 0 <= i < |views| && views[i].id == id)
    && (forall i, j :: 0 <= i < j < |views| ==> views[i].id != views[j].id)
  }

  lemma FoundOwnedRecords(records: map<ObjectId, FinancialRecord>, uid: ObjectId, order: seq<ObjectId>)
    requires IsScanOf(order, records)
    ensures ListsOwnedRecords(AddTransferAmounts(FindByUser(records, uid, order)), records, uid)
  {
    var docs := FindByUser(records, uid, order);
    var views := AddTransferAmounts(docs);
    forall i | 0 <= i < |views|
      ensures && views[i].id in records
              && records[views[i].id] == FinancialRecord(views[i].income, views[i].percentage, views[i].name, views[i].user)
              && views[i].user == uid
              && views[i].transferAmount == TransferAmount(views[i].income, views[i].percentage)
    {
      FindByUserSound(records, uid, order);
      assert docs[i].id in records && docs[i].record == records[docs[i].id] && docs[i].record.user == uid;
    }
    forall id | id in records && records[id].user == uid
      ensures exists i :: 0 <= i < |views| && views[i].id == id
    {
      FindByUserComplete(records, uid, order);
      var k :| 0 <= k < |order| && order[k] == id;
      var i :| 0 <= i < |docs| && docs[i].id == order[k];
      assert views[i].id == id;
    }
    forall i, j | 0 <= i < j < |views| ensures views[i].id != views[j].id {
      FindByUserDistinct(records, uid, order);
      assert views[i].id == docs[i].id && views[j].id == docs[j].id;
    }
  }

  /** The loader: anonymous without a session user, otherwise that user's records. */
  function Load(s: Store, order: seq<ObjectId>): (data: LoaderData)
    requires IsScanOf(order, s.records)
    ensures data.loggedIn <==> s.session.Some?
    ensures s.session.None? ==> data.financialRecords == []
    ensures s.session.Some? ==> ListsOwnedRecords(data.financialRecords, s.records, s.session.value)
  {
    match s.session
    case None => LoaderData(false, [])
    case Some(uid) =>
      var views := AddTransferAmounts(FindByUser(s.records, uid, order));
      FoundOwnedRecords(s.records, uid, order);
      LoaderData(true, views)
  }
}
