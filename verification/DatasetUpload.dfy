/** Uploading dataset items one by one, under IDs computed from their content. */
module DatasetUpload {
  import opened Vocabulary

  type Bytes = seq<bv8>

  type IdFunction = Bytes -> string

  type Rows = map<string, Bytes>

  /** The remote dataset. A failing call may or may not have taken effect. */
  class Remote {
    var rows: Rows
    ghost var failed: bool // a call has failed

    constructor (rows: Rows)
      ensures this.rows == rows && !failed
    {
      this.rows, failed := rows, false;
    }

    method UpsertDatasetItem(id: string, content: Bytes) returns (ok: bool)
      modifies this
      ensures failed == (old(failed) || !ok)
      ensures ok ==> rows == old(rows)[id := content]
      ensures rows == old(rows) || rows == old(rows)[id := content]
    {
      ok := *;
      var applied: bool := *;
      if ok || applied {
        rows := rows[id := content];
      }
      failed := failed || !ok;
    }
  }

  /** The rows after uploading contents in order. */
  function Upload(idFor: IdFunction, rows: Rows, contents: seq<Bytes>): Rows {
    if contents == [] then rows
    else
      var n := |contents| - 1;
      Upload(idFor, rows, contents[..n])[idFor(contents[n]) := contents[n]]
  }

  /** What an attempt can leave behind: the rows after some prefix of the contents. */
  ghost predicate Attempted(idFor: IdFunction, before: Rows, contents: seq<Bytes>, after: Rows) {
    exists k: nat :: k <= |contents| && after == Upload(idFor, before, contents[..k])
  }

  class Uploader {
    const client: Remote
    const idFor: IdFunction
    const dryRun: bool

    constructor (client: Remote, idFor: IdFunction, dryRun: bool)
      ensures this.client == client && this.idFor == idFor && this.dryRun == dryRun
    {
      this.client, this.idFor, this.dryRun := client, idFor, dryRun;
    }

    /** Stops at the first failing call; a dry run calls nothing. */
    method Upsert(contents: seq<Bytes>) returns (ok: bool)
      modifies client
      ensures !old(client.failed) ==> (ok <==> !client.failed)
      ensures dryRun ==> ok && client.rows == old(client.rows)
      ensures !dryRun && ok ==> client.rows == Upload(idFor, old(client.rows), contents)
      ensures !dryRun ==> Attempted(idFor, old(client.rows), contents, client.rows)
    {
      for i := 0 to |contents|
        invariant client.failed == old(client.failed)
        invariant dryRun ==> client.rows == old(client.rows)
        invariant !dryRun ==> client.rows == Upload(idFor, old(client.rows), contents[..i])
      {
        assert contents[..i + 1][..i] == contents[..i];
        var id := idFor(contents[i]);
        if dryRun {
          continue;
        }
        var done := client.UpsertDatasetItem(id, contents[i]);
        if !done {
          assert client.rows == Upload(idFor, old(client.rows), contents[..i])
              || client.rows == Upload(idFor, old(client.rows), contents[..i + 1]);
          return false;
        }
      }
      assert contents[..|contents|] == contents;
      return true;
    }
  }

  // ---- what a row holds ----

  /** The last content with a given ID, if any. */
  function LastWithId(idFor: IdFunction, contents: seq<Bytes>, id: string): Option<Bytes> {
    if contents == [] then None
    else
      var n := |contents| - 1;
      if idFor(contents[n]) == id then Some(contents[n]) else LastWithId(idFor, contents[..n], id)
  }

  function RowAt(rows: Rows, id: string): Option<Bytes> {
    if id in rows then Some(rows[id]) else None
  }

  lemma {:induction false} UploadAt(idFor: IdFunction, rows: Rows, contents: seq<Bytes>, id: string)
    ensures RowAt(Upload(idFor, rows, contents), id)
         == if LastWithId(idFor, contents, id).Some? then LastWithId(idFor, contents, id) else RowAt(rows, id)
    decreases |contents|
  {
    if contents != [] {
      UploadAt(idFor, rows, contents[..|contents| - 1], id);
    }
  }

  lemma SameRows(a: Rows, b: Rows)
    requires forall id :: RowAt(a, id) == RowAt(b, id)
    ensures a == b
  {
    forall id
      ensures id in a <==> id in b
      ensures id in a ==> a[id] == b[id]
    {
      assert RowAt(a, id) == RowAt(b, id);
    }
  }

  lemma {:induction false} LastWithIdOfPrefix(idFor: IdFunction, contents: seq<Bytes>, k: nat, id: string)
    requires k <= |contents| && LastWithId(idFor, contents, id).None?
    ensures LastWithId(idFor, contents[..k], id).None?
    decreases |contents|
  {
    if k < |contents| {
      var n := |contents| - 1;
      LastWithIdOfPrefix(idFor, contents[..n], k, id);
      assert contents[..n][..k] == contents[..k];
    } else {
      assert contents[..k] == contents;
    }
  }

  // ---- retries converge ----

  /** A completed upload after any attempt gives what one clean upload gives, for any ID function. */
  lemma RetryConverges(idFor: IdFunction, before: Rows, contents: seq<Bytes>, after: Rows)
    requires Attempted(idFor, before, contents, after)
    ensures Upload(idFor, after, contents) == Upload(idFor, before, contents)
  {
    var k: nat :| k <= |contents| && after == Upload(idFor, before, contents[..k]);
    forall id
      ensures RowAt(Upload(idFor, after, contents), id) == RowAt(Upload(idFor, before, contents), id)
    {
      UploadAt(idFor, after, contents, id);
      UploadAt(idFor, before, contents, id);
      if LastWithId(idFor, contents, id).None? {
        LastWithIdOfPrefix(idFor, contents, k, id);
        UploadAt(idFor, before, contents[..k], id);
      }
    }
    SameRows(Upload(idFor, after, contents), Upload(idFor, before, contents));
  }

  function Latest(before: Rows, states: seq<Rows>): Rows {
    if states == [] then before else states[|states| - 1]
  }

  /** states are the rows after successive attempts at the same upload, each starting where the last stopped. */
  ghost predicate Attempts(idFor: IdFunction, before: Rows, contents: seq<Bytes>, states: seq<Rows>) {
    states == []
    || var n := |states| - 1;
       Attempts(idFor, before, contents, states[..n])
       && Attempted(idFor, Latest(before, states[..n]), contents, states[n])
  }

  /** However many attempts failed, and wherever, the one that completes gives the clean result. */
  lemma {:induction false} ManyRetriesConverge(idFor: IdFunction, before: Rows, contents: seq<Bytes>, states: seq<Rows>)
    requires Attempts(idFor, before, contents, states)
    ensures Upload(idFor, Latest(before, states), contents) == Upload(idFor, before, contents)
    decreases |states|
  {
    if states != [] {
      var n := |states| - 1;
      ManyRetriesConverge(idFor, before, contents, states[..n]);
      RetryConverges(idFor, Latest(before, states[..n]), contents, states[n]);
    }
  }

  // ---- one row per content ----

  ghost predicate InjectiveOn(idFor: IdFunction, contents: set<Bytes>) {
    forall a, b :: a in contents && b in contents && idFor(a) == idFor(b) ==> a == b
  }

  lemma {:induction false} LastWithIdOfMember(idFor: IdFunction, contents: seq<Bytes>, id: string)
    ensures var last := LastWithId(idFor, contents, id);
      (last.Some? ==> last.value in contents && idFor(last.value) == id)
      && (last.None? ==> forall c :: c in contents ==> idFor(c) != id)
    decreases |contents|
  {
    if contents != [] {
      var n := |contents| - 1;
      LastWithIdOfMember(idFor, contents[..n], id);
      assert contents == contents[..n] + [contents[n]];
    }
  }

  /** Without ID collisions, order and repetition of the items do not matter. */
  lemma OrderDoesNotMatter(idFor: IdFunction, before: Rows, a: seq<Bytes>, b: seq<Bytes>)
    requires Elements(a) == Elements(b) && InjectiveOn(idFor, Elements(a))
    ensures Upload(idFor, before, a) == Upload(idFor, before, b)
  {
    forall id
      ensures RowAt(Upload(idFor, before, a), id) == RowAt(Upload(idFor, before, b), id)
    {
      UploadAt(idFor, before, a, id);
      UploadAt(idFor, before, b, id);
      LastWithIdOfMember(idFor, a, id);
      LastWithIdOfMember(idFor, b, id);
      assert forall c :: c in a <==> c in Elements(a);
      assert forall c :: c in b <==> c in Elements(b);
    }
    SameRows(Upload(idFor, before, a), Upload(idFor, before, b));
  }

  ghost function IdsOf(idFor: IdFunction, contents: set<Bytes>): set<string> {
    set c | c in contents :: idFor(c)
  }

  lemma {:induction false} UploadedIds(idFor: IdFunction, contents: seq<Bytes>)
    ensures Upload(idFor, map[], contents).Keys == IdsOf(idFor, Elements(contents))
    decreases |contents|
  {
    if contents != [] {
      var n := |contents| - 1;
      UploadedIds(idFor, contents[..n]);
      assert contents == contents[..n] + [contents[n]];
      assert Elements(contents) == Elements(contents[..n]) + {contents[n]};
    }
  }

  lemma {:induction false} ImageSize(idFor: IdFunction, contents: set<Bytes>)
    ensures |IdsOf(idFor, contents)| <= |contents|
    ensures |IdsOf(idFor, contents)| == |contents| <==> InjectiveOn(idFor, contents)
    decreases |contents|
  {
    if contents == {} {
      assert IdsOf(idFor, contents) == {};
    } else {
      var c :| c in contents;
      var rest := contents - {c};
      ImageSize(idFor, rest);
      assert IdsOf(idFor, contents) == IdsOf(idFor, rest) + {idFor(c)};
      if idFor(c) in IdsOf(idFor, rest) {
        var d :| d in rest && idFor(d) == idFor(c);
        assert IdsOf(idFor, contents) == IdsOf(idFor, rest);
        assert !InjectiveOn(idFor, contents);
      } else {
        assert forall d :: d in rest ==> idFor(d) in IdsOf(idFor, rest);
      }
    }
  }

  /** A fresh dataset gets one row per distinct content exactly if no two contents share an ID. */
  lemma OneRowPerContentIff(idFor: IdFunction, contents: seq<Bytes>)
    ensures |Upload(idFor, map[], contents)| == |Elements(contents)| <==> InjectiveOn(idFor, Elements(contents))
  {
    var rows := Upload(idFor, map[], contents);
    UploadedIds(idFor, contents);
    ImageSize(idFor, Elements(contents));
    assert |rows| == |rows.Keys|;
  }
}
