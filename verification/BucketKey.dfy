/**
 The lookup key of a conflict bucket: table, index name and the index-column values,
 the values length-prefixed so that the encoding is uniquely decodable.
 */
module BucketKey {
  import opened Wrappers
  import opened Events
  import opened Sequences

  const NUL: char := 0 as char

  datatype KeyError = FieldsNil | ColumnMissing(column: string) | UnexpectedNull(column: string)

  // ---------- decimal lengths ----------

  function Digit(d: nat): char
    requires d < 10
  {
    ('0' as int + d) as char
  }

  function Itoa(n: nat): (s: string)
    ensures |s| > 0 && forall c <- s :: '0' <= c <= '9'
  {
    if n < 10 then [Digit(n)] else Itoa(n / 10) + [Digit(n % 10)]
  }

  function Atoi(s: string): int {
    if s == [] then 0 else 10 * Atoi(s[..|s| - 1]) + (s[|s| - 1] as int - '0' as int)
  }

  lemma {:induction false} AtoiItoa(n: nat)
    ensures Atoi(Itoa(n)) == n
  {
    if n >= 10 {
      AtoiItoa(n / 10);
      assert Itoa(n)[..|Itoa(n)| - 1] == Itoa(n / 10);
    } else {
      assert Itoa(n)[..0] == [];
    }
  }

  // ---------- the encoding ----------

  function EncodeValue(v: Value): string {
    match v
    case None => "N"
    case Some(s) => "V" + Itoa(|s|) + ":" + s
  }

  function EncodeTuple(t: seq<Value>): string {
    if t == [] then "" else [NUL] + EncodeValue(t[0]) + EncodeTuple(t[1..])
  }

  function Encode(table: string, indexName: string, t: seq<Value>): string {
    table + [NUL] + indexName + EncodeTuple(t)
  }

  /** The first column, in index order, that makes the key uncomputable. */
  function ColumnError(fields: Fields, columns: seq<string>, nullsNotDistinct: bool): Option<KeyError> {
    if columns == [] then None
    else if columns[0] !in fields then Some(ColumnMissing(columns[0]))
    else if fields[columns[0]].None? && !nullsNotDistinct then Some(UnexpectedNull(columns[0]))
    else ColumnError(fields, columns[1..], nullsNotDistinct)
  }

  function KeyOf(table: string, fields: Option<Fields>, index: UniqueIndex): Result<string, KeyError> {
    if fields.None? then Failure(FieldsNil)
    else match ColumnError(fields.value, index.columns, index.nullsNotDistinct)
      case Some(err) => Failure(err)
      case None =>
        ColumnErrorNone(fields.value, index.columns, index.nullsNotDistinct);
        Success(Encode(table, index.name, Tuple(fields.value, index.columns)))
  }

  lemma {:induction false} ColumnErrorNone(fields: Fields, columns: seq<string>, nullsNotDistinct: bool)
    ensures ColumnError(fields, columns, nullsNotDistinct).None? <==>
            AllColumnsPresent(fields, columns) && (nullsNotDistinct || !AnyColumnNull(fields, columns))
  {
    if columns != [] {
      ColumnErrorNone(fields, columns[1..], nullsNotDistinct);
      assert columns == [columns[0]] + columns[1..];
    }
  }

  /** A key exists exactly when every column is present and NULLs are comparable. */
  lemma KeyComputable(table: string, fields: Option<Fields>, index: UniqueIndex)
    ensures KeyOf(table, fields, index).Success? <==>
            && fields.Some?
            && AllColumnsPresent(fields.value, index.columns)
            && (index.nullsNotDistinct || !AnyColumnNull(fields.value, index.columns))
  {
    if fields.Some? {
      ColumnErrorNone(fields.value, index.columns, index.nullsNotDistinct);
    }
  }

  lemma {:induction false} EncodeTupleAppend(t: seq<Value>, v: Value)
    ensures EncodeTuple(t + [v]) == EncodeTuple(t) + [NUL] + EncodeValue(v)
  {
    if t == [] {
      assert EncodeTuple([v]) == [NUL] + EncodeValue(v) + EncodeTuple([]);
    } else {
      assert (t + [v])[1..] == t[1..] + [v];
      EncodeTupleAppend(t[1..], v);
    }
  }

  lemma {:induction false} ColumnErrorSplit(fields: Fields, columns: seq<string>, nnd: bool, k: nat)
    requires k <= |columns|
    requires ColumnError(fields, columns[..k], nnd).None?
    ensures ColumnError(fields, columns, nnd) == ColumnError(fields, columns[k..], nnd)
  {
    if k > 0 {
      assert columns[..k][1..] == columns[1..][..k - 1];
      assert columns[1..][k - 1..] == columns[k..];
      ColumnErrorSplit(fields, columns[1..], nnd, k - 1);
    }
  }

  /** Writing the pieces of a value one by one writes the encoded value. */
  lemma AppendAssociates(b: string, digits: string, v: string)
    ensures b + "V" + digits + ":" + v == b + ("V" + digits + ":" + v)
  {
  }

  /** One more column whose value is comparable extends the key by its encoding. */
  lemma ExtendKey(table: string, fields: Fields, index: UniqueIndex, k: nat)
    requires k < |index.columns|
    requires ColumnError(fields, index.columns[..k], index.nullsNotDistinct).None?
    requires AllColumnsPresent(fields, index.columns[..k])
    requires index.columns[k] in fields
    requires fields[index.columns[k]].None? ==> index.nullsNotDistinct
    ensures ColumnError(fields, index.columns[..k + 1], index.nullsNotDistinct).None?
    ensures AllColumnsPresent(fields, index.columns[..k + 1])
    ensures Encode(table, index.name, Tuple(fields, index.columns[..k + 1])) ==
            Encode(table, index.name, Tuple(fields, index.columns[..k])) + [NUL] + EncodeValue(fields[index.columns[k]])
  {
    var cs, next, v := index.columns[..k], index.columns[..k + 1], fields[index.columns[k]];
    assert next == cs + [index.columns[k]];
    ColumnErrorNone(fields, cs, index.nullsNotDistinct);
    ColumnErrorNone(fields, next, index.nullsNotDistinct);
    assert Tuple(fields, next) == Tuple(fields, cs) + [v];
    EncodeTupleAppend(Tuple(fields, cs), v);
    var head, e := table + [NUL] + index.name, EncodeTuple(Tuple(fields, cs));
    assert head + (e + [NUL] + EncodeValue(v)) == head + e + [NUL] + EncodeValue(v);
  }

  /** The string-builder loop, with its three error exits. */
  method ComputeConflictBucketKey(table: string, fields: Option<Fields>, index: UniqueIndex)
    returns (key: Result<string, KeyError>)
    ensures key == KeyOf(table, fields, index)
  {
    if fields.None? {
      return Failure(FieldsNil);
    }
    var b := table;
    b := b + [NUL];
    b := b + index.name;
    var k := 0;
    while k < |index.columns|
      invariant 0 <= k <= |index.columns|
      invariant ColumnError(fields.value, index.columns[..k], index.nullsNotDistinct).None?
      invariant AllColumnsPresent(fields.value, index.columns[..k])
      invariant b == Encode(table, index.name, Tuple(fields.value, index.columns[..k]))
    {
      var column := index.columns[k];
      ColumnErrorSplit(fields.value, index.columns, index.nullsNotDistinct, k);
      if column !in fields.value {
        return Failure(ColumnMissing(column));
      }
      var val := fields.value[column];
      b := b + [NUL];
      if val.None? {
        if !index.nullsNotDistinct {
          return Failure(UnexpectedNull(column));
        }
        b := b + "N";
      } else {
        ghost var separated := b;
        b := b + "V";
        b := b + Itoa(|val.value|);
        b := b + ":";
        b := b + val.value;
        AppendAssociates(separated, Itoa(|val.value|), val.value);
      }
      ExtendKey(table, fields.value, index, k);
      k := k + 1;
    }
    assert index.columns[..k] == index.columns;
    ColumnErrorNone(fields.value, index.columns, index.nullsNotDistinct);
    return Success(b);
  }

  // ---------- unique decodability ----------

  /** Two strings that agree after a separator absent from both heads have equal heads. */
  lemma {:induction false} SplitAtSeparator(a: string, b: string, sep: char, x: string, y: string)
    requires sep !in a && sep !in b
    requires a + [sep] + x == b + [sep] + y
    ensures a == b && x == y
  {
    var s, t := a + [sep] + x, b + [sep] + y;
    assert s[0] == if a == [] then sep else a[0];
    assert t[0] == if b == [] then sep else b[0];
    if a == [] {
      assert x == s[1..] && y == t[1..];
    } else {
      assert s[1..] == a[1..] + [sep] + x && t[1..] == b[1..] + [sep] + y;
      SplitAtSeparator(a[1..], b[1..], sep, x, y);
      assert a == [a[0]] + a[1..] && b == [b[0]] + b[1..];
    }
  }

  lemma SplitPrefixed(v: string, w: string, a: string, b: string, x: string, y: string)
    requires ':' !in a && ':' !in b
    requires a == b ==> |v| == |w|
    requires a + [':'] + v + x == b + [':'] + w + y
    ensures v == w && x == y
  {
    Regroup(a, [':'], v, x);
    Regroup(b, [':'], w, y);
    SplitAtSeparator(a, b, ':', v + x, w + y);
    SplitAtLength(v, w, x, y);
  }

  lemma ItoaInjective(m: nat, n: nat)
    ensures ':' !in Itoa(m)
    ensures Itoa(m) == Itoa(n) ==> m == n
  {
    AtoiItoa(m);
    AtoiItoa(n);
  }

  lemma SplitValue(v: Value, w: Value, x: string, y: string)
    requires EncodeValue(v) + x == EncodeValue(w) + y
    ensures v == w && x == y
  {
    var s, t := EncodeValue(v) + x, EncodeValue(w) + y;
    assert s[0] == EncodeValue(v)[0] == if v.None? then 'N' else 'V';
    assert t[0] == EncodeValue(w)[0] == if w.None? then 'N' else 'V';
    if v.None? {
      assert x == s[1..] && y == t[1..];
    } else {
      DropHead(Itoa(|v.value|), v.value, x);
      DropHead(Itoa(|w.value|), w.value, y);
      ItoaInjective(|v.value|, |w.value|);
      ItoaInjective(|w.value|, |v.value|);
      SplitPrefixed(v.value, w.value, Itoa(|v.value|), Itoa(|w.value|), x, y);
    }
  }

  lemma DropHead(d: string, v: string, x: string)
    ensures ("V" + d + ":" + v + x)[1..] == d + [':'] + v + x
  {
    Regroup("V" + d, ":", v, x);
    Regroup("V", d, ":", v + x);
    Regroup(d, ":", v, x);
    var rest := d + ":" + (v + x);
    assert ("V" + rest)[1..] == rest;
  }

  lemma {:induction false} EncodeTupleInjective(t: seq<Value>, u: seq<Value>)
    requires EncodeTuple(t) == EncodeTuple(u)
    ensures t == u
  {
    if t != [] && u != [] {
      EncodeTupleTail(t);
      EncodeTupleTail(u);
      SplitValue(t[0], u[0], EncodeTuple(t[1..]), EncodeTuple(u[1..]));
      EncodeTupleInjective(t[1..], u[1..]);
      assert t == [t[0]] + t[1..] && u == [u[0]] + u[1..];
    }
  }

  lemma EncodeTupleTail(t: seq<Value>)
    requires t != []
    ensures EncodeTuple(t) != [] && EncodeTuple(t)[0] == NUL
    ensures EncodeTuple(t)[1..] == EncodeValue(t[0]) + EncodeTuple(t[1..])
  {
    var v, r := EncodeValue(t[0]), EncodeTuple(t[1..]);
    assert [NUL] + v + r == [NUL] + (v + r);
  }

  /** A NUL-free name followed by an encoded tuple determines both. */
  lemma SplitName(a: string, b: string, t: seq<Value>, u: seq<Value>)
    requires NUL !in a && NUL !in b
    requires a + EncodeTuple(t) == b + EncodeTuple(u)
    ensures a == b && t == u
  {
    if t != [] { EncodeTupleTail(t); }
    if u != [] { EncodeTupleTail(u); }
    SplitTails(a, b, EncodeTuple(t), EncodeTuple(u));
    EncodeTupleInjective(t, u);
  }

  /** Tails that are empty or start with NUL can be told from the NUL-free heads. */
  lemma {:induction false} SplitTails(a: string, b: string, x: string, y: string)
    requires NUL !in a && NUL !in b
    requires (x == [] || x[0] == NUL) && (y == [] || y[0] == NUL)
    requires a + x == b + y
    ensures a == b && x == y
  {
    var s, r := a + x, b + y;
    if a == [] && b == [] {
      assert s == x && r == y;
    } else {
      assert a != [] ==> s[0] == a[0] && a[0] in a;
      assert b != [] ==> r[0] == b[0] && b[0] in b;
      assert a == [] ==> s == x;
      assert b == [] ==> r == y;
      assert a != [] && b != [];
      assert s[1..] == a[1..] + x && r[1..] == b[1..] + y;
      SplitTails(a[1..], b[1..], x, y);
      assert a == [a[0]] + a[1..] && b == [b[0]] + b[1..];
    }
  }

  lemma EncodeInjective(table: string, table': string, name: string, name': string, t: seq<Value>, t': seq<Value>)
    requires NUL !in table && NUL !in table' && NUL !in name && NUL !in name'
    ensures Encode(table, name, t) == Encode(table', name', t') <==> table == table' && name == name' && t == t'
  {
    if Encode(table, name, t) == Encode(table', name', t') {
      var x, y := name + EncodeTuple(t), name' + EncodeTuple(t');
      assert Encode(table, name, t) == table + [NUL] + x;
      assert Encode(table', name', t') == table' + [NUL] + y;
      SplitAtSeparator(table, table', NUL, x, y);
      SplitName(name, name', t, t');
    }
  }

  /** Two computed keys coincide exactly when table and index coincide and the column
      values are equal under the index's NULL rule, whatever bytes the values contain. */
  lemma KeysEqualIffTuplesEqual(table: string, f: Fields, index: UniqueIndex,
                                table': string, f': Fields, index': UniqueIndex)
    requires NUL !in table && NUL !in table' && NUL !in index.name && NUL !in index'.name
    requires index.name == index'.name && table == table' ==> index == index'
    requires KeyOf(table, Some(f), index).Success? && KeyOf(table', Some(f'), index').Success?
    ensures KeyOf(table, Some(f), index) == KeyOf(table', Some(f'), index') <==>
            table == table' && index == index' && IndexValuesEqual(f, f', index)
  {
    KeyComputable(table, Some(f), index);
    KeyComputable(table', Some(f'), index');
    var t, t' := Tuple(f, index.columns), Tuple(f', index'.columns);
    EncodeInjective(table, table', index.name, index'.name, t, t');
    if index == index' {
      if t == t' {
        forall c <- index.columns ensures ColumnValuesEqual(f[c], f'[c], index.nullsNotDistinct) {
          var i :| 0 <= i < |index.columns| && index.columns[i] == c;
          assert t[i] == t'[i];
        }
      } else if IndexValuesEqual(f, f', index) {
        forall i | 0 <= i < |t| ensures t[i] == t'[i] {
          assert index.columns[i] in index.columns;
        }
        assert false;
      }
    }
  }

  /** Identifiers must be NUL-free: otherwise two different indexes can share a key. */
  lemma NulInNameCollides()
    ensures exists i: UniqueIndex, j: UniqueIndex, f: Fields ::
              i.name != j.name && KeyOf("t", Some(f), i).Success? && KeyOf("t", Some(f), i) == KeyOf("t", Some(f), j)
  {
    var i := UniqueIndex("i", ["c", "c"], false, true);
    var j := UniqueIndex("i" + [NUL] + "N", ["c"], false, true);
    var f: Fields := map["c" := None];
    assert ["c", "c"][1..] == ["c"] && ["c"][1..] == [];
    assert Tuple(f, ["c"]) == [None] && Tuple(f, ["c", "c"]) == [None, None];
    var n: seq<Value> := [None];
    var nn: seq<Value> := [None, None];
    assert nn[1..] == n && n[1..] == [];
    assert EncodeTuple(n) == [NUL] + "N";
    assert EncodeTuple([None, None]) == [NUL] + "N" + EncodeTuple(n);
    assert Encode("t", i.name, [None, None]) == Encode("t", j.name, n);
    assert KeyOf("t", Some(f), i) == KeyOf("t", Some(f), j);
  }
}
