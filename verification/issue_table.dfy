/** The destination's issue table, and what a successful synchronisation does to it. */
module IssueTable {
  import opened Wrappers
  import opened Translator

  /** A stored YouTrack issue: the id the destination assigned and the last body posted. */
  datatype IssueRecord = IssueRecord(id: nat, payload: IssuePayload)

  /** The record's `GitHubId` field holds `g`. */
  predicate Carries(r: IssueRecord, g: string)
  {
    CorrelationOf(r.payload) == Some(g)
  }

  /** The answer to the query `GitHubId: g`: every record carrying `g`, in table order.
      Exact string equality on the field value is the model's reading of the query. */
  function Carrying(t: seq<IssueRecord>, g: string): (m: seq<IssueRecord>)
    ensures |m| <= |t|
    ensures forall r :: r in m ==> r in t && Carries(r, g)
    ensures m == [] <==> forall i :: 0 <= i < |t| ==> !Carries(t[i], g)
    decreases |t|
  {
    if t == [] then []
    else (if Carries(t[0], g) then [t[0]] else []) + Carrying(t[1..], g)
  }

  /** How many records carry the correlation value `g`. */
  function Count(t: seq<IssueRecord>, g: string): nat
  {
    |Carrying(t, g)|
  }

  /** Ids grow along the table, so no id occurs twice. */
  predicate IdsIncreasing(t: seq<IssueRecord>)
  {
    forall i, j :: 0 <= i < j < |t| ==> t[i].id < t[j].id
  }

  /** Every id in the table is below `n`, so `n` is unused. */
  predicate IdsBelow(t: seq<IssueRecord>, n: nat)
  {
    forall i :: 0 <= i < |t| ==> t[i].id < n
  }

  predicate HasId(t: seq<IssueRecord>, id: nat)
  {
    exists i :: 0 <= i < |t| && t[i].id == id
  }

  /** The table after an update addressed to `id`: that record's body becomes `p`. */
  function Replace(t: seq<IssueRecord>, id: nat, p: IssuePayload): (u: seq<IssueRecord>)
    ensures |u| == |t|
    ensures forall i :: 0 <= i < |t| ==> u[i] == (if t[i].id == id then IssueRecord(id, p) else t[i])
    decreases |t|
  {
    if t == [] then []
    else [if t[0].id == id then IssueRecord(id, p) else t[0]] + Replace(t[1..], id, p)
  }

  /** The effect of a successful synchronisation of a body carrying `g`: look up the first
      record carrying `g`; create a record under the unused id `nextId` when there is none, otherwise
      update the one found. */
  function Upsert(t: seq<IssueRecord>, nextId: nat, p: IssuePayload, g: string): seq<IssueRecord>
  {
    var found := Carrying(t, g);
    if found == [] then t + [IssueRecord(nextId, p)] else Replace(t, found[0].id, p)
  }

  lemma {:induction false} CarryingAppend(t: seq<IssueRecord>, r: IssueRecord, g: string)
    ensures Carrying(t + [r], g) == Carrying(t, g) + (if Carries(r, g) then [r] else [])
    decreases |t|
  {
    if t == [] {
      assert [] + [r] == [r];
      assert [r][1..] == [];
    } else {
      assert (t + [r])[1..] == t[1..] + [r];
      CarryingAppend(t[1..], r, g);
    }
  }

  /** Appending a record changes the count of `h` by one exactly when it carries `h`. */
  lemma CountAppend(t: seq<IssueRecord>, r: IssueRecord, h: string)
    ensures Count(t + [r], h) == Count(t, h) + (if Carries(r, h) then 1 else 0)
  {
    CarryingAppend(t, r, h);
  }

  /** Replacing bodies of records that carry `g` with a body carrying `g` leaves the count of
      every correlation value as it was. */
  lemma {:induction false} ReplaceCount(t: seq<IssueRecord>, id: nat, p: IssuePayload, g: string, h: string)
    requires CorrelationOf(p) == Some(g)
    requires forall i :: 0 <= i < |t| && t[i].id == id ==> Carries(t[i], g)
    ensures Count(Replace(t, id, p), h) == Count(t, h)
    decreases |t|
  {
    if t != [] {
      var u := Replace(t, id, p);
      assert u[1..] == Replace(t[1..], id, p);
      assert forall i :: 0 <= i < |t[1..]| && t[1..][i].id == id ==> Carries(t[1..][i], g) by {
        forall i | 0 <= i < |t[1..]| && t[1..][i].id == id ensures Carries(t[1..][i], g) {
          assert t[1..][i] == t[i + 1];
        }
      }
      ReplaceCount(t[1..], id, p, g, h);
      assert Carries(u[0], h) == Carries(t[0], h);
    }
  }

  /** An update that writes back the body a record already has changes nothing. */
  lemma ReplaceNoop(t: seq<IssueRecord>, id: nat, p: IssuePayload)
    requires forall i :: 0 <= i < |t| && t[i].id == id ==> t[i].payload == p
    ensures Replace(t, id, p) == t
  {
  }

  /** After updating the first record carrying `g` with a body carrying `g`, that record is
      still the first one carrying `g`. */
  lemma {:induction false} FirstCarryingKept(t: seq<IssueRecord>, id: nat, p: IssuePayload, g: string)
    requires CorrelationOf(p) == Some(g)
    requires Carrying(t, g) != [] && Carrying(t, g)[0].id == id
    ensures Carrying(Replace(t, id, p), g) != [] && Carrying(Replace(t, id, p), g)[0].id == id
    decreases |t|
  {
    var u := Replace(t, id, p);
    assert u[1..] == Replace(t[1..], id, p);
    if t[0].id == id {
      assert Carries(u[0], g);
    } else {
      assert Carrying(t, g) == Carrying(t[1..], g);
      FirstCarryingKept(t[1..], id, p, g);
    }
  }

  /** The main property of synchronisation. Under unique ids and an unused id for creation:
      when `g` is already present its count does not grow, when it is absent it becomes 1,
      and the count of every other correlation value is untouched. The table grows by one
      record exactly when `g` was absent. */
  lemma UpsertCount(t: seq<IssueRecord>, nextId: nat, p: IssuePayload, g: string, h: string)
    requires IdsIncreasing(t) && IdsBelow(t, nextId)
    requires CorrelationOf(p) == Some(g)
    ensures Count(Upsert(t, nextId, p, g), h) == if h == g && Count(t, g) == 0 then 1 else Count(t, h)
    ensures |Upsert(t, nextId, p, g)| == |t| + (if Count(t, g) == 0 then 1 else 0)
  {
    var found := Carrying(t, g);
    if found == [] {
      CountAppend(t, IssueRecord(nextId, p), h);
    } else {
      var k := found[0].id;
      assert found[0] in t;
      var j :| 0 <= j < |t| && t[j] == found[0];
      assert forall i :: 0 <= i < |t| && t[i].id == k ==> i == j;
      ReplaceCount(t, k, p, g, h);
    }
  }

  /** Replaying a synchronisation with the same body converges: the second run updates the
      record the first one created or updated, and leaves the table as the first run left it. */
  lemma UpsertIdempotent(t: seq<IssueRecord>, nextId: nat, nextId': nat, p: IssuePayload, g: string)
    requires IdsIncreasing(t) && IdsBelow(t, nextId)
    requires CorrelationOf(p) == Some(g)
    ensures Upsert(Upsert(t, nextId, p, g), nextId', p, g) == Upsert(t, nextId, p, g)
  {
    var t' := Upsert(t, nextId, p, g);
    var found := Carrying(t, g);
    if found == [] {
      var r := IssueRecord(nextId, p);
      CarryingAppend(t, r, g);
      assert Carrying(t', g) == [r];
      ReplaceNoop(t', nextId, p);
    } else {
      var k := found[0].id;
      FirstCarryingKept(t, k, p, g);
      ReplaceNoop(t', k, p);
    }
  }
}
