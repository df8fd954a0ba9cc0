/** The steer spool of one dispatch: pending, delivered and expired rows, and what each operation does to them. */
module Spool {
  import opened Text

  /** Where an inherited row comes from. */
  datatype Origin = Origin(entryId: string, depositedAt: Option<int>, parent: string, via: string)

  datatype Outcome = Undecided | DeliveredAt(at: int, via: string) | ExpiredAt(at: int, reason: string)

  /** `depositedAt` is `None` when the stored timestamp cannot be parsed. */
  datatype Row = Row(entryId: string, authority: string, directive: string, depositedAt: Option<int>, ttl: int,
                     claimed: bool, origin: Option<Origin>, outcome: Outcome)

  datatype Spool = Spool(dispatchId: string, pending: seq<Row>, delivered: seq<Row>, expired: seq<Row>)

  const EMPTY := Spool("", [], [], [])

  predicate RowExpired(row: Row, now: int) {
    row.ttl > 0 && row.depositedAt.Some? && now - row.depositedAt.value > row.ttl
  }

  predicate Claimable(row: Row, now: int, allowExpired: bool) {
    !row.claimed && (allowExpired || !RowExpired(row, now))
  }

  /** The first claimable row at or after `i`, else the length. */
  function FirstClaimable(rows: seq<Row>, now: int, allowExpired: bool, i: nat): (r: nat)
    requires i <= |rows|
    ensures i <= r <= |rows| && (r < |rows| ==> Claimable(rows[r], now, allowExpired))
    ensures forall t :: i <= t < r ==> !Claimable(rows[t], now, allowExpired)
    decreases |rows| - i
  {
    if i == |rows| || Claimable(rows[i], now, allowExpired) then i else FirstClaimable(rows, now, allowExpired, i + 1)
  }

  function Claim(s: Spool, now: int, allowExpired: bool): (Spool, Option<Row>) {
    var i := FirstClaimable(s.pending, now, allowExpired, 0);
    if i == |s.pending| then (s, None)
    else
      var row := s.pending[i].(claimed := true);
      (s.(pending := s.pending[i := row]), Some(row))
  }

  /** The first row with the given id, else the length. */
  function FirstId(rows: seq<Row>, id: string): (r: nat)
    ensures r <= |rows| && (r < |rows| ==> rows[r].entryId == id) && forall t :: 0 <= t < r ==> rows[t].entryId != id
  {
    if rows == [] || rows[0].entryId == id then 0 else 1 + FirstId(rows[1..], id)
  }

  function Mark(s: Spool, dispatchId: string, entryId: string, at: int, via: string): Spool {
    var i := FirstId(s.pending, entryId);
    if i == |s.pending| then s.(dispatchId := dispatchId)
    else
      var record := s.pending[i].(claimed := true, outcome := DeliveredAt(at, via));
      Spool(dispatchId, s.pending[..i] + s.pending[i + 1..], s.delivered + [record], s.expired)
  }

  datatype Live = Ended | Alive | Unknown

  /** Claim and mark under one lock; a dispatch known to have ended gets nothing. */
  function Consume(s: Spool, dispatchId: string, live: Live, now: int, at: int, via: string): (Spool, Option<Row>) {
    if live.Ended? then (s, None)
    else
      var (claimed, row) := Claim(s, now, live.Alive?);
      if row.None? then (s, None) else (Mark(claimed, dispatchId, row.value.entryId, at, via), row)
  }

  function ExpireRows(rows: seq<Row>, at: int, reason: string): (r: seq<Row>)
    ensures |r| == |rows|
    ensures forall t :: 0 <= t < |rows| ==> r[t] == rows[t].(claimed := true, outcome := ExpiredAt(at, reason))
  {
    seq(|rows|, t requires 0 <= t < |rows| => rows[t].(claimed := true, outcome := ExpiredAt(at, reason)))
  }

  function Expire(s: Spool, dispatchId: string, at: int, reason: string): Spool {
    if s.pending == [] then s
    else Spool(dispatchId, [], s.delivered, s.expired + ExpireRows(s.pending, at, reason))
  }

  predicate HasAuthority(rows: seq<Row>, authority: string) {
    exists i :: 0 <= i < |rows| && rows[i].authority == authority
  }

  function FreshRow(entryId: string, authority: string, directive: string, now: int, ttl: int): Row {
    Row(entryId, authority, directive, Some(now), ttl, false, None, Undecided)
  }

  /** A deposit is skipped while the same authority is still pending. */
  function Append(s: Spool, dispatchId: string, row: Row): Spool {
    if HasAuthority(s.pending, row.authority) then s
    else s.(dispatchId := dispatchId, pending := s.pending + [row])
  }

  /** `id` is the id under which the authority of `row` is pending, at `held`. */
  predicate PendingUnder(held: Row, row: Row, id: string) {
    held.authority == row.authority && id == if held.entryId != "" then held.entryId else row.entryId
  }

  predicate Known(s: Spool, authority: string) {
    HasAuthority(s.pending, authority) || HasAuthority(s.delivered, authority) || HasAuthority(s.expired, authority)
  }

  predicate HasText(row: Row) {
    Strip(row.directive) != ""
  }

  function PendingEligible(rows: seq<Row>): seq<Row> {
    if rows == [] then [] else (if HasText(rows[0]) then [rows[0]] else []) + PendingEligible(rows[1..])
  }

  function ExpiredEligible(rows: seq<Row>, delivered: seq<Row>): seq<Row> {
    if rows == [] then []
    else
      (if rows[0].authority != "" && !HasAuthority(delivered, rows[0].authority) && HasText(rows[0]) then [rows[0]] else [])
      + ExpiredEligible(rows[1..], delivered)
  }

  /** Rows a resumed dispatch takes over: pending ones, and expired ones never delivered. */
  function Eligible(s: Spool): seq<Row> {
    PendingEligible(s.pending) + ExpiredEligible(s.expired, s.delivered)
  }

  function Inherited(row: Row, id: string, now: int, parent: string, via: string): Row {
    Row(id, row.authority, row.directive, Some(now), row.ttl, false,
        Some(Origin(row.entryId, row.depositedAt, parent, via)), Undecided)
  }

  /** Copies the snapshot rows whose authority is new to `s`, in order; `ids` supplies the entry ids. */
  function Inherit(s: Spool, snapshot: seq<Row>, ids: seq<string>, now: int, parent: string, via: string): Spool
    requires |ids| == |snapshot|
    decreases |snapshot|
  {
    if snapshot == [] then s
    else
      var row := snapshot[0];
      var next := if row.authority == "" || Known(s, row.authority) then s
                  else s.(pending := s.pending + [Inherited(row, ids[0], now, parent, via)]);
      Inherit(next, snapshot[1..], ids[1..], now, parent, via)
  }

  /** The child file after inheriting: rewritten only when something was copied. */
  function InheritInto(s: Spool, childId: string, snapshot: seq<Row>, ids: seq<string>, now: int, parent: string, via: string): Spool
    requires |ids| == |snapshot|
  {
    var t := Inherit(s, snapshot, ids, now, parent, via);
    if t.pending == s.pending then s else t.(dispatchId := childId)
  }

  /* ---------- the file operations ---------- */

  /** One spool file; `None` while the file does not exist. */
  class SpoolFile {
    var file: Option<Spool>

    function Load(): Spool
      reads this
    {
      if file.Some? then file.value else EMPTY
    }

    method ClaimPending(now: int, allowExpired: bool) returns (claimed: Option<Row>)
      modifies this
      ensures old(file).None? ==> file.None? && claimed.None?
      ensures old(file).Some? ==> (Load(), claimed) == Claim(old(Load()), now, allowExpired) && file.Some?
    {
      if file.None? {
        return None;
      }
      var data := Load();
      for i := 0 to |data.pending|
        invariant FirstClaimable(data.pending, now, allowExpired, 0) == FirstClaimable(data.pending, now, allowExpired, i)
        invariant file == old(file)
      {
        if Claimable(data.pending[i], now, allowExpired) {
          var row := data.pending[i].(claimed := true);
          file := Some(data.(pending := data.pending[i := row]));
          return Some(row);
        }
      }
      claimed := None;
    }

    method MarkDelivered(dispatchId: string, entryId: string, at: int, via: string)
      modifies this
      ensures old(file).None? ==> file.None?
      ensures old(file).Some? ==> file == Some(Mark(old(Load()), dispatchId, entryId, at, via))
    {
      hide FirstId;
      if file.None? {
        return;
      }
      var data := Load();
      var kept: seq<Row>, delivered, moved := [], data.delivered, false;
      ghost var at' := FirstId(data.pending, entryId);
      for i := 0 to |data.pending|
        invariant file == old(file) && moved == (at' < i)
        invariant kept == (if moved then data.pending[..at'] + data.pending[at' + 1..i] else data.pending[..i])
        invariant delivered == if moved
          then data.delivered + [data.pending[at'].(claimed := true, outcome := DeliveredAt(at, via))] else data.delivered
      {
        var raw := data.pending[i];
        if !moved && raw.entryId == entryId {
          delivered := delivered + [raw.(claimed := true, outcome := DeliveredAt(at, via))];
          moved := true;
        } else {
          kept := kept + [raw];
        }
      }
      assert data.pending[..|data.pending|] == data.pending;
      assert moved ==> data.pending[at' + 1..|data.pending|] == data.pending[at' + 1..];
      file := Some(Spool(dispatchId, kept, delivered, data.expired));
    }

    method ConsumeNext(dispatchId: string, live: Live, now: int, at: int, via: string) returns (row: Option<Row>)
      modifies this
      ensures old(file).None? ==> file.None? && row.None?
      ensures old(file).Some? ==> (Load(), row) == Consume(old(Load()), dispatchId, live, now, at, via) && file.Some?
    {
      if file.None? || live.Ended? {
        return None;
      }
      row := ClaimPending(now, live.Alive?);
      if row.Some? {
        MarkDelivered(dispatchId, row.value.entryId, at, via);
      }
    }

    method ExpirePending(dispatchId: string, at: int, reason: string) returns (moved: seq<Row>)
      modifies this
      ensures old(file).None? ==> file.None? && moved == []
      ensures old(file).Some? ==> Load() == Expire(old(Load()), dispatchId, at, reason) && file.Some?
      ensures old(file).Some? ==> moved == ExpireRows(old(Load()).pending, at, reason)
    {
      moved := [];
      if file.None? || Load().pending == [] {
        return;
      }
      var data := Load();
      var expired := data.expired;
      for i := 0 to |data.pending|
        invariant file == old(file) && |moved| == i && expired == data.expired + moved
        invariant moved == ExpireRows(data.pending, at, reason)[..i]
      {
        var record := data.pending[i].(claimed := true, outcome := ExpiredAt(at, reason));
        expired := expired + [record];
        moved := moved + [record];
      }
      file := Some(Spool(dispatchId, [], data.delivered, expired));
    }

    /** The deposit path; returns the id under which the authority is pending. */
    method AppendEntry(dispatchId: string, row: Row) returns (id: string)
      modifies this
      ensures Load() == Append(old(Load()), dispatchId, row)
      ensures old(file).Some? ==> file.Some?
      ensures !HasAuthority(old(Load()).pending, row.authority) ==> id == row.entryId
      ensures HasAuthority(old(Load()).pending, row.authority) ==> file == old(file)
      ensures HasAuthority(old(Load()).pending, row.authority) ==>
        exists i :: 0 <= i < |Load().pending| && PendingUnder(Load().pending[i], row, id)
    {
      var data := Load();
      for i := 0 to |data.pending|
        invariant file == old(file) && forall t :: 0 <= t < i ==> data.pending[t].authority != row.authority
      {
        if data.pending[i].authority == row.authority {
          return if data.pending[i].entryId != "" then data.pending[i].entryId else row.entryId;
        }
      }
      file := Some(data.(dispatchId := dispatchId, pending := data.pending + [row]));
      id := row.entryId;
    }

    /** Copies what `parent` still owes into this file; the parent file is only read. */
    method InheritFrom(parent: SpoolFile, parentId: string, childId: string, via: string, now: int, ids: seq<string>)
      returns (copied: seq<string>)
      requires Strip(parentId) != Strip(childId) ==> parent != this
      requires |ids| == |Eligible(parent.Load())|
      modifies this
      ensures parent != this ==> parent.file == old(parent.file)
      ensures Strip(parentId) == "" || Strip(childId) == "" || Strip(parentId) == Strip(childId) ==> file == old(file) && copied == []
      ensures !(Strip(parentId) == "" || Strip(childId) == "" || Strip(parentId) == Strip(childId)) ==>
        && Load() == InheritInto(old(Load()), Strip(childId), Eligible(old(parent.Load())), ids, now, Strip(parentId), via)
        && |Load().pending| == |old(Load()).pending| + |copied|
        && forall k :: 0 <= k < |copied| ==> Load().pending[|old(Load()).pending| + k].entryId == copied[k]
    {
      copied := [];
      var from, child := Strip(parentId), Strip(childId);
      if from == "" || child == "" || from == child {
        return;
      }
      var snapshot := Eligible(parent.Load());
      var data := Load();
      var grown := data;
      for i := 0 to |snapshot|
        invariant file == old(file)
        invariant grown.delivered == data.delivered && grown.expired == data.expired && grown.dispatchId == data.dispatchId
        invariant data.pending <= grown.pending && |grown.pending| == |data.pending| + |copied|
        invariant forall k :: 0 <= k < |copied| ==> grown.pending[|data.pending| + k].entryId == copied[k]
        invariant Inherit(grown, snapshot[i..], ids[i..], now, from, via) == Inherit(data, snapshot, ids, now, from, via)
      {
        var row := snapshot[i];
        assert snapshot[i..][0] == row && snapshot[i..][1..] == snapshot[i + 1..];
        assert ids[i..][0] == ids[i] && ids[i..][1..] == ids[i + 1..];
        if !(row.authority == "" || Known(grown, row.authority)) {
          grown := grown.(pending := grown.pending + [Inherited(row, ids[i], now, from, via)]);
          copied := copied + [ids[i]];
        }
      }
      if |copied| > 0 {
        file := Some(grown.(dispatchId := child));
      }
    }
  }
}
