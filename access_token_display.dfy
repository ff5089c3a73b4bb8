/**
 * The access-token card: the text shown for the raw token, and the claims
 * table built by folding over the decoded token's entries.
 */
module AccessTokenDisplay {
  import opened Js

  const NotSet := "<not set>"

  /** `!!auth ? accessTokenRaw || '<not set>' : '<not set>'`, where `raw` is
      what `localStorage.getItem` returned. */
  function TokenDisplay(auth: Value, raw: Value): (text: string)
    requires raw.Null? || raw.Str?
    ensures Truthy(auth) && raw.Str? && raw.s != "" ==> text == raw.s
    ensures !(Truthy(auth) && raw.Str? && raw.s != "") ==> text == NotSet
  {
    ToText(if Truthy(auth) then Or(raw, Str(NotSet)) else Str(NotSet))
  }

  /** `!!auth ? (jwt.decode(accessTokenRaw) || {}) : {}`, where `decoded` is
      what `jwt.decode` returned. */
  function Claims(auth: Value, decoded: Value): (token: Value)
    ensures !Truthy(auth) ==> token == Obj([])
    ensures Truthy(auth) && Truthy(decoded) ==> token == decoded
    ensures Truthy(auth) && !Truthy(decoded) ==> token == Obj([])
  {
    if Truthy(auth) then Or(decoded, Obj([])) else Obj([])
  }

  /** `[].concat(value)`: an array contributes its elements, anything else itself. */
  function Elements(v: Value): (elems: seq<Value>)
    ensures v.Arr? ==> elems == v.items
    ensures !v.Arr? ==> elems == [v]
  {
    if v.Arr? then v.items else [v]
  }

  /** One table row: its React key, the claim name and one value. */
  datatype Row = Row(key: nat, name: string, value: Value)

  /** `arrayValue.map(...)` for one entry, keys counted from `base`. */
  function EntryRows(base: nat, name: string, value: Value): (rows: seq<Row>)
    ensures |rows| == |Elements(value)|
    ensures forall i :: 0 <= i < |rows| ==>
      rows[i].key == base + i && rows[i].name == name && rows[i].value == Elements(value)[i]
  {
    var elems := Elements(value);
    seq(|elems|, i requires 0 <= i < |elems| => Row(base + i, name, elems[i]))
  }

  /** The `reduce` with accumulator `acc`: each entry appends its rows, keyed
      from `acc.length`. */
  function Reduce(acc: seq<Row>, entries: seq<(string, Value)>): (rows: seq<Row>)
    ensures |rows| == |acc| + RowCount(entries)
    ensures rows[..|acc|] == acc
    decreases |entries|
  {
    if entries == [] then acc
    else Reduce(acc + EntryRows(|acc|, entries[0].0, entries[0].1), entries[1..])
  }

  /** `claimsRows`: as many rows as the expected count; row `i` has key `i`
      and carries the `i`-th claim name and value in entry-then-element order. */
  function ClaimsRows(token: Value): (rows: seq<Row>)
    ensures |rows| == RowCount(Entries(token)) == |Flatten(Entries(token))|
    ensures forall i :: 0 <= i < |rows| ==>
      rows[i].key == i && (rows[i].name, rows[i].value) == Flatten(Entries(token))[i]
  {
    ReduceNumbersFlatten([], Entries(token));
    FlattenCount(Entries(token));
    Reduce([], Entries(token))
  }

  // ---------------------------------------------------------------------------
  // Reference definition: the (name, value) pairs in entry order, then element order

  function Flatten(entries: seq<(string, Value)>): seq<(string, Value)>
    decreases |entries|
  {
    if entries == [] then []
    else
      var elems := Elements(entries[0].1);
      seq(|elems|, i requires 0 <= i < |elems| => (entries[0].0, elems[i])) + Flatten(entries[1..])
  }

  /** The expected number of rows: one per scalar claim, one per element of an array claim. */
  function RowCount(entries: seq<(string, Value)>): nat
    decreases |entries|
  {
    if entries == [] then 0 else |Elements(entries[0].1)| + RowCount(entries[1..])
  }

  /** Pairs numbered consecutively from `base`. */
  function Numbered(base: nat, pairs: seq<(string, Value)>): seq<Row>
  {
    seq(|pairs|, i requires 0 <= i < |pairs| => Row(base + i, pairs[i].0, pairs[i].1))
  }

  lemma {:induction false} FlattenCount(entries: seq<(string, Value)>)
    ensures |Flatten(entries)| == RowCount(entries)
    decreases |entries|
  {
    if entries != [] {
      FlattenCount(entries[1..]);
    }
  }

  /** Numbering a concatenation numbers the second part from where the first ends. */
  lemma NumberedAppend(base: nat, xs: seq<(string, Value)>, ys: seq<(string, Value)>)
    ensures Numbered(base, xs) + Numbered(base + |xs|, ys) == Numbered(base, xs + ys)
  {
  }

  /** The fold appends to its accumulator exactly the flattened pairs, keyed
      consecutively from the accumulator's length. */
  lemma {:induction false} ReduceNumbersFlatten(acc: seq<Row>, entries: seq<(string, Value)>)
    ensures Reduce(acc, entries) == acc + Numbered(|acc|, Flatten(entries))
    decreases |entries|
  {
    if entries == [] {
      assert Numbered(|acc|, []) == [];
    } else {
      var (name, value) := entries[0];
      var elems := Elements(value);
      var head := seq(|elems|, i requires 0 <= i < |elems| => (name, elems[i]));
      var acc' := acc + EntryRows(|acc|, name, value);
      ReduceNumbersFlatten(acc', entries[1..]);
      assert Flatten(entries) == head + Flatten(entries[1..]);
      NumberedAppend(|acc|, head, Flatten(entries[1..]));
      assert EntryRows(|acc|, name, value) == Numbered(|acc|, head);
    }
  }

  /** Row keys are distinct. */
  lemma ClaimsRowKeysDistinct(token: Value)
    ensures forall i, j :: 0 <= i < j < |ClaimsRows(token)| ==> ClaimsRows(token)[i].key != ClaimsRows(token)[j].key
  {
  }

  /** Without truthy `auth` the table is empty, whatever was decoded. */
  lemma NoRowsUnlessAuthenticated(auth: Value, decoded: Value)
    requires !Truthy(auth)
    ensures ClaimsRows(Claims(auth, decoded)) == []
  {
  }

  /** A scalar claim gives one row, an array claim one row per element and an
      empty array none. */
  lemma ClaimsRowsExample()
    ensures ClaimsRows(Obj([("sub", Str("u1")), ("aud", Arr([Str("a"), Str("b")])), ("roles", Arr([]))]))
         == [Row(0, "sub", Str("u1")), Row(1, "aud", Str("a")), Row(2, "aud", Str("b"))]
  {
    var token := Obj([("sub", Str("u1")), ("aud", Arr([Str("a"), Str("b")])), ("roles", Arr([]))]);
    var es := Entries(token);
    assert Flatten(es[2..]) == [];
    assert Flatten(es[1..]) == [("aud", Str("a")), ("aud", Str("b"))];
    assert Flatten(es) == [("sub", Str("u1")), ("aud", Str("a")), ("aud", Str("b"))];
  }
}
