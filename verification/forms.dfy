/** The validation idiom every form screen shares: an error object filled
    field by field, with one key per failing field, and for line items one
    key per failing row test, built as `${prefix}${index}` inside
    `rows.forEach((row, index) => ...)`. A form may be submitted exactly when
    the object ends up empty. */
module Forms {
  import opened JsString
  import opened Wrappers

  /** Field key to message. */
  type Errors = map<string, string>

  /** A top-level field key ("nombre", "id_proveedor", "detalleCompras")
      holds no digit. */
  predicate NoDigit(k: string) {
    forall i :: 0 <= i < |k| ==> !IsDigit(k[i])
  }

  /** The error map holds only top-level field keys. */
  predicate FieldKeys(errs: Errors) {
    forall k :: k in errs ==> NoDigit(k)
  }

  /** `if (!x) errors.k = message` on a text input: the message exactly
      when the text is empty. */
  function RequiredError(s: string, message: string): (r: Option<string>)
    ensures r.None? <==> s != ""
    ensures r.Some? ==> r.value == message
  {
    if s == "" then Some(message) else None
  }

  /** `if (!x || x.length < n) errors.k = message`: the message exactly when
      the text is empty or shorter than `n`. */
  function MinLengthError(s: string, n: nat, message: string): (r: Option<string>)
    ensures r.None? <==> s != "" && |s| >= n
    ensures r.Some? ==> r.value == message
  {
    if s == "" || |s| < n then Some(message) else None
  }

  /** `${prefix}${index}`, the key of a row error such as "cantidad_2". */
  function RowKey(prefix: string, index: nat): (k: string)
    ensures prefix < k
    ensures !NoDigit(k)
  {
    var s := NatToString(index);
    assert IsDigit((prefix + s)[|prefix|]);
    prefix + s
  }

  /** A row key never coincides with a top-level field key. */
  lemma RowKeyNotField(prefix: string, index: nat, k: string)
    requires NoDigit(k)
    ensures RowKey(prefix, index) != k
  {
  }

  /** With digit-free prefixes, the key determines both the prefix and the
      row: two row tests, or two rows, never share a key. */
  lemma RowKeyInjective(p: string, i: nat, q: string, j: nat)
    requires NoDigit(p) && NoDigit(q)
    requires RowKey(p, i) == RowKey(q, j)
    ensures p == q && i == j
  {
    var a, b := NatToString(i), NatToString(j);
    var s := p + a;
    assert s == q + b;
    assert forall k :: 0 <= k < |s| ==> (IsDigit(s[k]) <==> k >= |p|) by {
      forall k | 0 <= k < |s| ensures IsDigit(s[k]) <==> k >= |p| {
        if k < |p| { assert s[k] == p[k]; } else { assert s[k] == a[k - |p|]; }
      }
    }
    assert forall k :: 0 <= k < |s| ==> (IsDigit(s[k]) <==> k >= |q|) by {
      forall k | 0 <= k < |s| ensures IsDigit(s[k]) <==> k >= |q| {
        if k < |q| { assert s[k] == q[k]; } else { assert s[k] == b[k - |q|]; }
      }
    }
    assert IsDigit(s[|p|]) && IsDigit(s[|q|]);
    assert |p| == |q|;
    assert p == s[..|p|] == q;
    assert a == s[|p|..] == b;
    NatToStringInjective(i, j);
  }

  /** For one row, different prefixes give different keys. */
  lemma SameRowKeysDiffer(p: string, q: string, index: nat)
    requires p != q
    ensures RowKey(p, index) != RowKey(q, index)
  {
    var s := NatToString(index);
    assert (p + s)[..|p|] == p;
    assert (q + s)[..|q|] == q;
  }

  /** One top-level check: the field's key and, when the field fails, the
      message stored under it. A chain `if ... else if ...` on one field
      yields one message at most. */
  datatype FieldCheck = FieldCheck(key: string, error: Option<string>)

  /** `if (missing) errors[key] = message`: the message exactly when the
      field is missing. */
  function Required(missing: bool, message: string): (r: Option<string>)
    ensures r.Some? <==> missing
    ensures r.Some? ==> r.value == message
  {
    if missing then Some(message) else None
  }

  predicate DistinctKeys(checks: seq<FieldCheck>) {
    forall a, b :: 0 <= a < b < |checks| ==> checks[a].key != checks[b].key
  }

  /** The checks' keys are distinct top-level field keys. */
  predicate WellFormedChecks(checks: seq<FieldCheck>) {
    DistinctKeys(checks) && forall a :: 0 <= a < |checks| ==> NoDigit(checks[a].key)
  }

  /** Keys with pairwise different first characters are distinct. */
  lemma DistinctFirstChars(checks: seq<FieldCheck>)
    requires forall a :: 0 <= a < |checks| ==> checks[a].key != ""
    requires forall a, b :: 0 <= a < b < |checks| ==> checks[a].key[0] != checks[b].key[0]
    ensures DistinctKeys(checks)
  {
  }

  /** The top-level part of a validator: each failing field's message under
      its key, and nothing else. */
  function FieldMap(checks: seq<FieldCheck>): (e: Errors)
    requires WellFormedChecks(checks)
    ensures FieldKeys(e)
    ensures forall a :: 0 <= a < |checks| ==> (checks[a].key in e <==> checks[a].error.Some?)
    ensures forall a :: 0 <= a < |checks| && checks[a].error.Some? ==>
              e[checks[a].key] == checks[a].error.value
    ensures forall k :: k in e ==> exists a :: 0 <= a < |checks| && checks[a].key == k
    decreases |checks|
  {
    if checks == [] then map[]
    else
      var n := |checks| - 1;
      var front := checks[..n];
      assert WellFormedChecks(front);
      var e := FieldMap(front);
      assert forall a :: 0 <= a < n ==> front[a] == checks[a];
      assert checks[n].key !in e;
      match checks[n].error
      case Some(msg) => e[checks[n].key := msg]
      case None => e
  }

  /** No top-level error exactly when every field passes. */
  lemma FieldMapEmpty(checks: seq<FieldCheck>)
    requires WellFormedChecks(checks)
    ensures FieldMap(checks) == map[] <==> forall a :: 0 <= a < |checks| ==> checks[a].error.None?
  {
    var e := FieldMap(checks);
    if e != map[] {
      var k :| k in e;
      var a :| 0 <= a < |checks| && checks[a].key == k;
      assert checks[a].error.Some?;
    }
  }

  /** One test of a row validator: `check` gives the message for a row it
      rejects (the source's `if (...) errors[prefix + index] = message`). */
  datatype RowRule<-T> = RowRule(prefix: string, check: T -> Option<string>)

  predicate DistinctPrefixes<T>(rules: seq<RowRule<T>>) {
    forall a, b :: 0 <= a < b < |rules| ==> rules[a].prefix != rules[b].prefix
  }

  /** Each test writes under its own digit-free prefix. */
  predicate WellFormedRules<T>(rules: seq<RowRule<T>>) {
    DistinctPrefixes(rules) && forall a :: 0 <= a < |rules| ==> NoDigit(rules[a].prefix)
  }

  /** `k` is the key test `a` uses for row `index`. */
  predicate KeyOfRule<T>(rules: seq<RowRule<T>>, a: int, index: nat, k: string) {
    0 <= a < |rules| && k == RowKey(rules[a].prefix, index)
  }

  /** The row passes every test. */
  predicate RowPasses<T>(rules: seq<RowRule<T>>, row: T) {
    forall a :: 0 <= a < |rules| ==> rules[a].check(row).None?
  }

  predicate AllRowsPass<T>(rules: seq<RowRule<T>>, rows: seq<T>) {
    forall i :: 0 <= i < |rows| ==> RowPasses(rules, rows[i])
  }

  /** One test applied to one row. */
  function Put<T>(m: Errors, rule: RowRule<T>, row: T, index: nat): Errors {
    match rule.check(row)
    case Some(msg) => m[RowKey(rule.prefix, index) := msg]
    case None => m
  }

  /** The body of the `forEach` callback: every test, in order, on row
      `index`. Starting from a map with no key of this row, the result adds
      exactly the keys of the failing tests, with their messages. */
  function ApplyRules<T>(m: Errors, row: T, index: nat, rules: seq<RowRule<T>>): (r: Errors)
    requires DistinctPrefixes(rules)
    requires forall a :: 0 <= a < |rules| ==> RowKey(rules[a].prefix, index) !in m
    ensures forall k :: k in m ==> k in r && r[k] == m[k]
    ensures forall a :: 0 <= a < |rules| ==>
              (RowKey(rules[a].prefix, index) in r <==> rules[a].check(row).Some?)
    ensures forall a :: 0 <= a < |rules| && rules[a].check(row).Some? ==>
              r[RowKey(rules[a].prefix, index)] == rules[a].check(row).value
    ensures forall k :: k in r && k !in m ==> exists a :: KeyOfRule(rules, a, index, k)
    decreases |rules|
  {
    if rules == [] then m
    else
      var rest := rules[1..];
      var m' := Put(m, rules[0], row, index);
      RestKeysFresh(m, row, index, rules);
      var r := ApplyRules(m', row, index, rest);
      FirstRuleThenRest(m, m', r, row, index, rules);
      r
  }

  /** After the first test, no key of the remaining tests is present. */
  lemma RestKeysFresh<T>(m: Errors, row: T, index: nat, rules: seq<RowRule<T>>)
    requires rules != [] && DistinctPrefixes(rules)
    requires forall a :: 0 <= a < |rules| ==> RowKey(rules[a].prefix, index) !in m
    ensures DistinctPrefixes(rules[1..])
    ensures forall a :: 0 <= a < |rules[1..]| ==> RowKey(rules[1..][a].prefix, index) !in Put(m, rules[0], row, index)
  {
    var rest := rules[1..];
    forall a | 0 <= a < |rest|
      ensures RowKey(rest[a].prefix, index) !in Put(m, rules[0], row, index)
    {
      assert rest[a] == rules[a + 1];
      SameRowKeysDiffer(rules[a + 1].prefix, rules[0].prefix, index);
    }
  }

  /** The first test's verdict followed by the rest's is the verdict of all
      the tests. */
  lemma FirstRuleThenRest<T>(m: Errors, m': Errors, r: Errors, row: T, index: nat, rules: seq<RowRule<T>>)
    requires rules != [] && DistinctPrefixes(rules)
    requires forall a :: 0 <= a < |rules| ==> RowKey(rules[a].prefix, index) !in m
    requires m' == Put(m, rules[0], row, index)
    requires forall k :: k in m' ==> k in r && r[k] == m'[k]
    requires forall a :: 0 <= a < |rules[1..]| ==>
               (RowKey(rules[1..][a].prefix, index) in r <==> rules[1..][a].check(row).Some?)
    requires forall a :: 0 <= a < |rules[1..]| && rules[1..][a].check(row).Some? ==>
               r[RowKey(rules[1..][a].prefix, index)] == rules[1..][a].check(row).value
    requires forall a :: 0 <= a < |rules[1..]| ==> RowKey(rules[1..][a].prefix, index) !in m'
    requires forall k :: k in r && k !in m' ==> exists a :: KeyOfRule(rules[1..], a, index, k)
    ensures forall k :: k in m ==> k in r && r[k] == m[k]
    ensures forall a :: 0 <= a < |rules| ==>
              (RowKey(rules[a].prefix, index) in r <==> rules[a].check(row).Some?)
    ensures forall a :: 0 <= a < |rules| && rules[a].check(row).Some? ==>
              r[RowKey(rules[a].prefix, index)] == rules[a].check(row).value
    ensures forall k :: k in r && k !in m ==> exists a :: KeyOfRule(rules, a, index, k)
  {
    var rest := rules[1..];
    var k0 := RowKey(rules[0].prefix, index);
    forall a | 0 <= a < |rules|
      ensures RowKey(rules[a].prefix, index) in r <==> rules[a].check(row).Some?
      ensures rules[a].check(row).Some? ==> r[RowKey(rules[a].prefix, index)] == rules[a].check(row).value
    {
      if a == 0 {
        if rules[0].check(row).None? {
          assert k0 !in m';
        }
      } else {
        assert rules[a] == rest[a - 1];
      }
    }
    forall k | k in r && k !in m ensures exists a :: KeyOfRule(rules, a, index, k) {
      if k in m' {
        assert KeyOfRule(rules, 0, index, k);
      } else {
        var a :| KeyOfRule(rest, a, index, k);
        assert KeyOfRule(rules, a + 1, index, k);
      }
    }
  }

  /** `k` is the key of some test for row `index`. */
  ghost predicate RowKeyAt<T>(rules: seq<RowRule<T>>, index: nat, k: string) {
    exists a :: KeyOfRule(rules, a, index, k)
  }

  /** `k` is the key of some test for one of the first `n` rows. */
  ghost predicate RowKeyBefore<T>(rules: seq<RowRule<T>>, n: nat, k: string) {
    exists i :: 0 <= i < n && RowKeyAt(rules, i, k)
  }

  /** `r` is what the row validator owes on `rows` starting from `errs`:
      the top-level entries are untouched; row `i` fails test `a` exactly
      when the key `prefix_a + i` is present, and then it carries that
      test's message; and no other key is added. */
  ghost predicate Verdicts<T>(r: Errors, errs: Errors, rows: seq<T>, rules: seq<RowRule<T>>) {
    && (forall k :: k in errs ==> k in r && r[k] == errs[k])
    && (forall i, a :: 0 <= i < |rows| && 0 <= a < |rules| ==>
          (RowKey(rules[a].prefix, i) in r <==> rules[a].check(rows[i]).Some?))
    && (forall i, a :: 0 <= i < |rows| && 0 <= a < |rules| && rules[a].check(rows[i]).Some? ==>
          r[RowKey(rules[a].prefix, i)] == rules[a].check(rows[i]).value)
    && (forall k :: k in r && k !in errs ==> RowKeyBefore(rules, |rows|, k))
  }

  /** `rows.forEach((row, index) => { ...tests... })` run on an error map
      that holds only top-level keys. */
  function ForEachRow<T>(errs: Errors, rows: seq<T>, rules: seq<RowRule<T>>): (r: Errors)
    requires FieldKeys(errs) && WellFormedRules(rules)
    ensures Verdicts(r, errs, rows, rules)
    decreases |rows|
  {
    if rows == [] then errs
    else
      var n := |rows| - 1;
      var front := rows[..n];
      var prev := ForEachRow(errs, front, rules);
      LastRowKeysFresh(errs, prev, rules, n);
      var r := ApplyRules(prev, rows[n], n, rules);
      NextRowVerdicts(errs, front, rows[n], prev, r, rules);
      assert rows == front + [rows[n]];
      r
  }

  /** No key of row `n` is present before that row is visited. */
  lemma LastRowKeysFresh<T>(errs: Errors, prev: Errors, rules: seq<RowRule<T>>, n: nat)
    requires FieldKeys(errs) && WellFormedRules(rules)
    requires forall k :: k in prev && k !in errs ==> RowKeyBefore(rules, n, k)
    ensures forall a :: 0 <= a < |rules| ==> RowKey(rules[a].prefix, n) !in prev
  {
    forall a | 0 <= a < |rules| ensures RowKey(rules[a].prefix, n) !in prev {
      var k := RowKey(rules[a].prefix, n);
      if k in prev && k !in errs {
        var i :| 0 <= i < n && RowKeyAt(rules, i, k);
        var b :| KeyOfRule(rules, b, i, k);
        RowKeyInjective(rules[a].prefix, n, rules[b].prefix, i);
      }
    }
  }

  /** Visiting one more row keeps the verdicts on the earlier rows, since
      its keys differ from theirs, and adds the verdicts on the new row. */
  lemma NextRowVerdicts<T>(errs: Errors, front: seq<T>, last: T, prev: Errors, r: Errors,
                           rules: seq<RowRule<T>>)
    requires FieldKeys(errs) && WellFormedRules(rules)
    requires Verdicts(prev, errs, front, rules)
    requires forall k :: k in prev ==> k in r && r[k] == prev[k]
    requires forall a :: 0 <= a < |rules| ==>
               (RowKey(rules[a].prefix, |front|) in r <==> rules[a].check(last).Some?)
    requires forall a :: 0 <= a < |rules| && rules[a].check(last).Some? ==>
               r[RowKey(rules[a].prefix, |front|)] == rules[a].check(last).value
    requires forall k :: k in r && k !in prev ==> exists a :: KeyOfRule(rules, a, |front|, k)
    ensures Verdicts(r, errs, front + [last], rules)
  {
    var n := |front|;
    var rows := front + [last];
    forall i, a | 0 <= i < |rows| && 0 <= a < |rules|
      ensures RowKey(rules[a].prefix, i) in r <==> rules[a].check(rows[i]).Some?
      ensures rules[a].check(rows[i]).Some? ==>
                r[RowKey(rules[a].prefix, i)] == rules[a].check(rows[i]).value
    {
      if i < n {
        EarlierVerdictKept(errs, front, prev, r, rules, i, a);
        assert rows[i] == front[i];
      } else {
        assert rows[i] == last;
      }
    }
    forall k | k in r && k !in errs ensures RowKeyBefore(rules, |rows|, k) {
      if k in prev {
        var i :| 0 <= i < n && RowKeyAt(rules, i, k);
        assert 0 <= i < |rows| && RowKeyAt(rules, i, k);
      } else {
        var a :| KeyOfRule(rules, a, n, k);
        assert RowKeyAt(rules, n, k);
      }
    }
  }

  /** An earlier row's verdict on one test survives the visit of row `n`. */
  lemma EarlierVerdictKept<T>(errs: Errors, front: seq<T>, prev: Errors, r: Errors,
                              rules: seq<RowRule<T>>, i: int, a: int)
    requires WellFormedRules(rules)
    requires Verdicts(prev, errs, front, rules)
    requires forall k :: k in prev ==> k in r && r[k] == prev[k]
    requires forall k :: k in r && k !in prev ==> exists a :: KeyOfRule(rules, a, |front|, k)
    requires 0 <= i < |front| && 0 <= a < |rules|
    ensures RowKey(rules[a].prefix, i) in r <==> rules[a].check(front[i]).Some?
    ensures rules[a].check(front[i]).Some? ==>
              r[RowKey(rules[a].prefix, i)] == rules[a].check(front[i]).value
  {
    var k := RowKey(rules[a].prefix, i);
    if k in r && k !in prev {
      var b :| KeyOfRule(rules, b, |front|, k);
      RowKeyInjective(rules[a].prefix, i, rules[b].prefix, |front|);
    }
  }

  /** Once every row passes, the validator has added no key. */
  lemma NothingAddedWhenRowsPass<T>(r: Errors, errs: Errors, rows: seq<T>, rules: seq<RowRule<T>>)
    requires Verdicts(r, errs, rows, rules) && AllRowsPass(rules, rows)
    ensures r == errs
  {
    forall k | k in r ensures k in errs {
      if k !in errs {
        var i :| 0 <= i < |rows| && RowKeyAt(rules, i, k);
        PassingRowHasNoKey(r, errs, rows, rules, i, k);
      }
    }
  }

  lemma PassingRowHasNoKey<T>(r: Errors, errs: Errors, rows: seq<T>, rules: seq<RowRule<T>>,
                              i: int, k: string)
    requires Verdicts(r, errs, rows, rules)
    requires 0 <= i < |rows| && RowPasses(rules, rows[i]) && RowKeyAt(rules, i, k)
    ensures k !in r
  {
    var a :| KeyOfRule(rules, a, i, k);
  }

  /** A row that fails a test leaves a key no top-level field can have. */
  lemma FailingRowAddsKey<T>(r: Errors, errs: Errors, rows: seq<T>, rules: seq<RowRule<T>>)
    requires FieldKeys(errs) && Verdicts(r, errs, rows, rules) && !AllRowsPass(rules, rows)
    ensures exists k :: k in r && k !in errs
  {
    var i :| 0 <= i < |rows| && !RowPasses(rules, rows[i]);
    var a :| 0 <= a < |rules| && rules[a].check(rows[i]).Some?;
    var k := RowKey(rules[a].prefix, i);
    assert k in r && k !in errs;
  }

  /** The row validator adds nothing exactly when every row passes every
      test; a form whose top-level checks all pass is then submittable. */
  lemma ForEachRowAddsNothing<T>(errs: Errors, rows: seq<T>, rules: seq<RowRule<T>>)
    requires FieldKeys(errs) && WellFormedRules(rules)
    ensures ForEachRow(errs, rows, rules) == errs <==> AllRowsPass(rules, rows)
    ensures ForEachRow(errs, rows, rules) == map[] <==> errs == map[] && AllRowsPass(rules, rows)
  {
    var r := ForEachRow(errs, rows, rules);
    if AllRowsPass(rules, rows) {
      NothingAddedWhenRowsPass(r, errs, rows, rules);
    } else {
      FailingRowAddsKey(r, errs, rows, rules);
    }
  }

  /** A row test never writes a top-level key. */
  lemma FieldKeyUntouched<T>(errs: Errors, rows: seq<T>, rules: seq<RowRule<T>>, k: string)
    requires FieldKeys(errs) && WellFormedRules(rules) && NoDigit(k)
    ensures k in ForEachRow(errs, rows, rules) <==> k in errs
  {
  }

  /** A whole validator: the top-level checks, then the row tests on every
      row. A field is reported exactly when its check fails, a row test
      exactly when the row fails it, and the form is accepted exactly when
      every check and every row test passes. */
  function Validator<T>(checks: seq<FieldCheck>, rows: seq<T>, rules: seq<RowRule<T>>): (r: Errors)
    requires WellFormedChecks(checks) && WellFormedRules(rules)
    ensures forall a :: 0 <= a < |checks| ==> (checks[a].key in r <==> checks[a].error.Some?)
    ensures forall a :: 0 <= a < |checks| && checks[a].error.Some? ==>
              r[checks[a].key] == checks[a].error.value
    ensures forall i, a :: 0 <= i < |rows| && 0 <= a < |rules| ==>
              (RowKey(rules[a].prefix, i) in r <==> rules[a].check(rows[i]).Some?)
    ensures r == map[] <==>
              (forall a :: 0 <= a < |checks| ==> checks[a].error.None?) && AllRowsPass(rules, rows)
  {
    var top := FieldMap(checks);
    FieldMapEmpty(checks);
    ForEachRowAddsNothing(top, rows, rules);
    forall a | 0 <= a < |checks|
      ensures checks[a].key in ForEachRow(top, rows, rules) <==> checks[a].key in top
    {
      FieldKeyUntouched(top, rows, rules, checks[a].key);
    }
    ForEachRow(top, rows, rules)
  }
}
