/**
 * The hash-chained audit log (src/ab_audit/store.py): each row's hash is a MAC of the previous
 * hash followed by the row's canonical text. The MAC is a parameter; a theorem that rests on it
 * either holds or returns two distinct texts with the same MAC.
 */
module Audit {
  import opened Common
  import opened CanonicalJson

  const GENESIS := "GENESIS"

  /** What the caller of `append` records. A payload that is absent is the empty one. */
  datatype Entry = Entry(occurredAt: string, principal: string, action: string, resource: string, outcome: string,
                         payload: Fields)

  datatype Row = Row(entry: Entry, prevHash: string, hash: string)

  type Mac = string -> string

  /** The parts of a record in key order. */
  function Parts(e: Entry): Fields {
    Field("action", Str(e.action), Field("occurred_at", Str(e.occurredAt), LaterParts(e)))
  }

  function LaterParts(e: Entry): Fields {
    Field("outcome", Str(e.outcome), Field("payload", Obj(e.payload), LastParts(e)))
  }

  function LastParts(e: Entry): Fields {
    Field("principal", Str(e.principal), Field("resource", Str(e.resource), NoFields))
  }

  /** The canonical record, keys in sorted order. */
  function Canonical(e: Entry): string {
    Encode(Obj(Parts(e)), "")
  }

  function Link(mac: Mac, prev: string, e: Entry): string {
    mac(prev + Canonical(e))
  }

  /** What the next row links to. */
  function Tail(log: seq<Row>): string {
    if log == [] then GENESIS else log[|log| - 1].hash
  }

  function NextRow(mac: Mac, log: seq<Row>, e: Entry): Row {
    Row(e, Tail(log), Link(mac, Tail(log), e))
  }

  /** Every row links the one before it and carries its own MAC. */
  ghost predicate Chained(mac: Mac, log: seq<Row>) {
    forall k {:trigger log[k]} :: 0 <= k < |log| ==> log[k] == NextRow(mac, log[..k], log[k].entry)
  }

  /** A hex digest: in particular neither GENESIS nor any text with a brace. */
  predicate IsDigest(t: string) {
    t != "" && forall k :: 0 <= k < |t| ==> IsDigit(t[k]) || 'a' <= t[k] <= 'f'
  }

  ghost predicate Digests(mac: Mac) {
    forall t :: IsDigest(mac(t))
  }

  ghost predicate Collision(mac: Mac, x: string, y: string) {
    x != y && mac(x) == mac(y)
  }

  /** What a row says its hash is the MAC of. */
  function Input(r: Row): string {
    r.prevHash + Canonical(r.entry)
  }

  /** Two different MAC inputs, one of a row of each log, have the same MAC. */
  ghost predicate CollisionIn(mac: Mac, a: seq<Row>, b: seq<Row>, x: string, y: string) {
    && Collision(mac, x, y)
    && (exists i :: 0 <= i < |a| && x == Input(a[i]))
    && (exists j :: 0 <= j < |b| && y == Input(b[j]))
  }

  // ---------------------------------------------------------------- splitting the MAC's input

  predicate Braceless(t: string) {
    forall k :: 0 <= k < |t| ==> t[k] != '{'
  }

  lemma TailBraceless(mac: Mac, log: seq<Row>)
    requires Digests(mac) && Chained(mac, log)
    ensures Braceless(Tail(log)) && (log != [] ==> Tail(log) != GENESIS)
  {
    if log != [] {
      assert log[|log| - 1] == NextRow(mac, log[..|log| - 1], log[|log| - 1].entry);
      assert IsDigest(Tail(log));
      assert !IsDigest(GENESIS) by { assert GENESIS[0] == 'G'; }
    }
  }

  lemma CanonicalStart(e: Entry)
    ensures Canonical(e) != "" && Canonical(e)[0] == '{'
  {}

  lemma BraceFollows(p: string, c: string, q: string, d: string)
    requires p + c == q + d && |p| < |q| && c != "" && c[0] == '{'
    ensures !Braceless(q)
  {
    assert q[|p|] == (q + d)[|p|] == (p + c)[|p|] == c[0];
  }

  /** The previous hash and the canonical text cannot run into each other. */
  lemma UniqueSplit(p: string, e: Entry, q: string, f: Entry)
    requires Braceless(p) && Braceless(q) && p + Canonical(e) == q + Canonical(f)
    ensures p == q && e == f
  {
    CanonicalStart(e);
    CanonicalStart(f);
    if |p| < |q| { BraceFollows(p, Canonical(e), q, Canonical(f)); }
    if |q| < |p| { BraceFollows(q, Canonical(f), p, Canonical(e)); }
    SameHalves(p, Canonical(e), q, Canonical(f));
    CanonicalInjective(e, f);
  }

  function Lookup(fields: Fields, key: string): Option<Json> {
    match fields
    case NoFields => None
    case Field(k, value, rest) => if k == key then Some(value) else Lookup(rest, key)
  }

  function Keys(fields: Fields): seq<string> {
    match fields
    case NoFields => []
    case Field(k, _, rest) => [k] + Keys(rest)
  }

  lemma PartKeys(e: Entry)
    ensures Keys(Parts(e)) == ["action", "occurred_at", "outcome", "payload", "principal", "resource"]
  {
    var resource := Field("resource", Str(e.resource), NoFields);
    assert Keys(resource) == ["resource"] + Keys(NoFields) && Keys(NoFields) == [];
    assert Keys(LastParts(e)) == ["principal"] + Keys(resource);
    assert Keys(LaterParts(e)) == ["outcome", "payload"] + Keys(LastParts(e));
    assert Keys(Parts(e)) == ["action", "occurred_at"] + Keys(LaterParts(e));
  }

  /** A key that two fields do not have is looked up behind them. */
  lemma LookupBehind(k1: string, v1: Json, k2: string, v2: Json, rest: Fields, key: string)
    requires key != k1 && key != k2
    ensures Lookup(Field(k1, v1, Field(k2, v2, rest)), key) == Lookup(rest, key)
  {}

  lemma LaterLookups(e: Entry)
    ensures var f := LaterParts(e);
      && Lookup(f, "outcome") == Some(Str(e.outcome)) && Lookup(f, "payload") == Some(Obj(e.payload))
      && Lookup(f, "principal") == Some(Str(e.principal)) && Lookup(f, "resource") == Some(Str(e.resource))
  {
    assert "principal"[1] != "payload"[1] && "principal"[0] != "outcome"[0] && "payload"[0] != "outcome"[0];
    assert "resource"[0] != "payload"[0] && "resource"[0] != "outcome"[0] && "resource"[0] != "principal"[0];
    LookupBehind("outcome", Str(e.outcome), "payload", Obj(e.payload), LastParts(e), "principal");
    LookupBehind("outcome", Str(e.outcome), "payload", Obj(e.payload), LastParts(e), "resource");
  }

  /** Read back, the canonical text is an object with exactly the record's six parts under their names, keys sorted. */
  lemma CanonicalRecord(e: Entry)
    ensures var r := ReadValue(Canonical(e));
      && r.Got? && r.rest == "" && r.value.Obj?
      && Keys(r.value.fields) == ["action", "occurred_at", "outcome", "payload", "principal", "resource"]
      && Lookup(r.value.fields, "action") == Some(Str(e.action))
      && Lookup(r.value.fields, "occurred_at") == Some(Str(e.occurredAt))
      && Lookup(r.value.fields, "outcome") == Some(Str(e.outcome))
      && Lookup(r.value.fields, "payload") == Some(Obj(e.payload))
      && Lookup(r.value.fields, "principal") == Some(Str(e.principal))
      && Lookup(r.value.fields, "resource") == Some(Str(e.resource))
  {
    ValueRead(Obj(Parts(e)), "");
    PartKeys(e);
    LaterLookups(e);
    assert "occurred_at"[0] != "action"[0];
    forall key | key in {"outcome", "payload", "principal", "resource"}
      ensures Lookup(Parts(e), key) == Lookup(LaterParts(e), key)
    {
      assert key[0] != 'a' && (key == "outcome" ==> key[1] != "occurred_at"[1]);
      LookupBehind("action", Str(e.action), "occurred_at", Str(e.occurredAt), LaterParts(e), key);
    }
  }

  /** Different records have different canonical texts. */
  lemma CanonicalInjective(e: Entry, f: Entry)
    requires Canonical(e) == Canonical(f)
    ensures e == f
  {
    EncodeInjective(Obj(Parts(e)), Obj(Parts(f)));
  }

  // ---------------------------------------------------------------- tamper evidence

  /** Every prefix verifies: the chain cannot show that the newest rows were dropped. */
  lemma ChainedPrefix(mac: Mac, log: seq<Row>, n: nat)
    requires Chained(mac, log) && n <= |log|
    ensures Chained(mac, log[..n])
  {}

  /** The last row of a verified log, seen from the log before it. */
  lemma LastRow(mac: Mac, log: seq<Row>)
    requires Chained(mac, log) && log != []
    ensures var m := |log| - 1;
      Chained(mac, log[..m]) && log[m] == NextRow(mac, log[..m], log[m].entry) && log == log[..m] + [log[m]]
  {
    ChainedPrefix(mac, log, |log| - 1);
    assert log[|log| - 1] == NextRow(mac, log[..|log| - 1], log[|log| - 1].entry);
  }

  /** Equal hashes of two next rows: equal rows after equal tails, or their inputs collide. */
  lemma SameNextHash(mac: Mac, a: seq<Row>, e: Entry, b: seq<Row>, f: Entry)
    requires Braceless(Tail(a)) && Braceless(Tail(b))
    requires NextRow(mac, a, e).hash == NextRow(mac, b, f).hash
    ensures (Tail(a) == Tail(b) && e == f) || Collision(mac, Input(NextRow(mac, a, e)), Input(NextRow(mac, b, f)))
  {
    if Input(NextRow(mac, a, e)) == Input(NextRow(mac, b, f)) {
      UniqueSplit(Tail(a), e, Tail(b), f);
    }
  }

  /** A collision among the rows of two prefixes is one among the rows of the logs. */
  lemma CollisionLater(mac: Mac, a: seq<Row>, m: nat, b: seq<Row>, n: nat, x: string, y: string)
    requires m <= |a| && n <= |b| && CollisionIn(mac, a[..m], b[..n], x, y)
    ensures CollisionIn(mac, a, b, x, y)
  {
    var i :| 0 <= i < m && x == Input(a[..m][i]);
    var j :| 0 <= j < n && y == Input(b[..n][j]);
    assert a[i] == a[..m][i] && b[j] == b[..n][j];
  }

  /**
   * Two verified logs that end in the same hash are equal row for row, or a row of the one and a row
   * of the other have different MAC inputs with the same MAC, and these are returned: so no edit,
   * insertion, interior deletion or reordering that keeps the last hash is accepted.
   */
  lemma {:induction false} SameTailSameLog(mac: Mac, a: seq<Row>, b: seq<Row>) returns (x: string, y: string)
    requires Digests(mac) && Chained(mac, a) && Chained(mac, b) && Tail(a) == Tail(b)
    ensures a == b || CollisionIn(mac, a, b, x, y)
    decreases |a|
  {
    x, y := "", "";
    TailBraceless(mac, a);
    TailBraceless(mac, b);
    if a != [] && b != [] {
      LastRow(mac, a);
      LastRow(mac, b);
      var m, n := |a| - 1, |b| - 1;
      TailBraceless(mac, a[..m]);
      TailBraceless(mac, b[..n]);
      SameNextHash(mac, a[..m], a[m].entry, b[..n], b[n].entry);
      if Collision(mac, Input(a[m]), Input(b[n])) {
        x, y := Input(a[m]), Input(b[n]);
      } else {
        x, y := SameTailSameLog(mac, a[..m], b[..n]);
        if a[..m] != b[..n] { CollisionLater(mac, a, m, b, n, x, y); }
      }
    }
  }

  /** No two rows of a verified log link the same hash, or two rows of the log collide. */
  lemma NoFork(mac: Mac, log: seq<Row>, i: nat, j: nat) returns (x: string, y: string)
    requires Digests(mac) && Chained(mac, log) && i < j < |log|
    ensures log[i].prevHash != log[j].prevHash || CollisionIn(mac, log, log, x, y)
  {
    x, y := "", "";
    if log[i].prevHash == log[j].prevHash {
      ChainedPrefix(mac, log, i);
      ChainedPrefix(mac, log, j);
      assert log[i] == NextRow(mac, log[..i], log[i].entry) && log[j] == NextRow(mac, log[..j], log[j].entry);
      x, y := SameTailSameLog(mac, log[..i], log[..j]);
      assert |log[..i]| != |log[..j]|;
      CollisionLater(mac, log, i, log, j, x, y);
    }
  }

  /** A change of the interior: a log with another row `k` is rejected, or collides with the original. */
  lemma EditDetected(mac: Mac, log: seq<Row>, k: nat, row: Row) returns (x: string, y: string)
    requires Digests(mac) && Chained(mac, log) && k < |log| - 1 && row != log[k]
    ensures !Chained(mac, log[k := row]) || CollisionIn(mac, log, log[k := row], x, y)
  {
    x, y := "", "";
    if Chained(mac, log[k := row]) {
      x, y := SameTailSameLog(mac, log, log[k := row]);
    }
  }

  /** Striking out a row that is not the last, likewise. */
  lemma DeletionDetected(mac: Mac, log: seq<Row>, k: nat) returns (x: string, y: string)
    requires Digests(mac) && Chained(mac, log) && k < |log| - 1
    ensures var cut := log[..k] + log[k + 1..];
      !Chained(mac, cut) || CollisionIn(mac, log, cut, x, y)
  {
    x, y := "", "";
    var cut := log[..k] + log[k + 1..];
    if Chained(mac, cut) {
      assert Tail(cut) == Tail(log);
      x, y := SameTailSameLog(mac, log, cut);
      assert |cut| != |log|;
    }
  }

  /** One more row properly linked, and only such a row, keeps a log verified. */
  lemma ChainedSnoc(mac: Mac, log: seq<Row>, row: Row)
    ensures Chained(mac, log + [row]) <==> Chained(mac, log) && row == NextRow(mac, log, row.entry)
  {
    var more := log + [row];
    if Chained(mac, more) {
      ChainedPrefix(mac, more, |log|);
      assert more[|log|] == NextRow(mac, more[..|log|], more[|log|].entry);
      assert more[..|log|] == log;
    }
    if Chained(mac, log) && row == NextRow(mac, log, row.entry) {
      forall k | 0 <= k < |more| ensures more[k] == NextRow(mac, more[..k], more[k].entry) {
        if k < |log| {
          assert more[..k] == log[..k] && log[k] == NextRow(mac, log[..k], log[k].entry);
        } else {
          assert more[..k] == log;
        }
      }
    }
  }

  lemma BrokenPrefix(mac: Mac, log: seq<Row>, n: nat)
    requires n <= |log| && !Chained(mac, log[..n])
    ensures !Chained(mac, log)
  {}

  function OrEmpty(payload: Option<Fields>): Fields {
    if payload.Some? then payload.value else NoFields
  }

  class AuditLog {
    const mac: Mac
    var rows: seq<Row>

    constructor (mac: Mac)
      ensures this.mac == mac && rows == [] && Chained(mac, rows)
    {
      this.mac := mac;
      rows := [];
    }

    /** One appender on its own; `payload or {}`. */
    method Append(occurredAt: string, principal: string, action: string, resource: string, outcome: string,
                  payload: Option<Fields>) returns (h: string)
      requires Chained(mac, rows)
      modifies this
      ensures Chained(mac, rows)
      ensures var e := Entry(occurredAt, principal, action, resource, outcome, OrEmpty(payload));
        rows == old(rows) + [NextRow(mac, old(rows), e)]
      ensures h == Tail(rows)
    {
      var e := Entry(occurredAt, principal, action, resource, outcome, OrEmpty(payload));
      var prevHash := if |rows| > 0 then rows[|rows| - 1].hash else GENESIS;
      h := Link(mac, prevHash, e);
      ChainedSnoc(mac, rows, Row(e, prevHash, h));
      rows := rows + [Row(e, prevHash, h)];
    }

    /** Recompute the chain: true iff every row's hash and link are intact. */
    method VerifyChain() returns (intact: bool)
      ensures intact <==> Chained(mac, rows)
    {
      var prev := GENESIS;
      for k := 0 to |rows|
        invariant prev == Tail(rows[..k])
        invariant Chained(mac, rows[..k])
      {
        var r := rows[k];
        var expected := Link(mac, prev, r.entry);
        ChainedSnoc(mac, rows[..k], r);
        assert rows[..k + 1] == rows[..k] + [r];
        if r.prevHash != prev || r.hash != expected {
          BrokenPrefix(mac, rows, k + 1);
          return false;
        }
        prev := r.hash;
      }
      assert rows[..|rows|] == rows;
      return true;
    }
  }
}
