// Validate: the rule-message annotation in front of the external validator,
// and the key filter applied to request data.

module Validate {
  import opened Php

  // ---------------------------------------------------------------------
  // Check

  /**
   * A rule as the caller passes it: normally `[field, validator, ...options]`,
   * but any PHP value can stand in the rule list.
   */
  type Rule = (Key, Value)

  /** The message a rule for `required` carries. */
  const RequiredMessage: string := "{attr}必填"

  /** The message every other rule carries. */
  const FormatMessage: string := "{attr}格式错误"

  /** `$v == 'required'` under PHP 8's loose comparison with a non-numeric string. */
  predicate IsRequired(v: Value) {
    match v
    case Str(s) => s == "required"
    case Bool(b) => b
    case _ => false
  }

  /**
   * `$v[1]` of a rule, where the message choice can matter: an array's
   * element 1, and null for null and false (which only warn).
   */
  function Second(v: Value): Value {
    if v.Arr? then Get(v.entries, IntKey(1)) else Null
  }

  /** The message the loop writes into a rule. */
  function MessageFor(v: Value): string {
    if IsRequired(Second(v)) then RequiredMessage else FormatMessage
  }

  /**
   * One pass of the loop body on a rule: `$v['msg'] = …`. An array gains the
   * message, null and false become `['msg' => …]`, and any other value
   * throws.
   */
  function AnnotateRule(v: Value): (r: Result<Value>)
    ensures r.Ok? <==> v.Null? || v == Bool(false) || v.Arr?
    ensures r.Ok? ==> r.value.Arr?
  {
    SetKey(v, StrKey("msg"), Str(MessageFor(v)))
  }

  /** The rule list `Check` hands to the validator, or the error of the first rule the loop cannot write. */
  function Annotated(rules: seq<Rule>): (r: Result<seq<Rule>>)
    ensures r.Ok? ==> |r.value| == |rules|
    ensures r.Ok? ==> forall i :: 0 <= i < |r.value| ==> r.value[i].0 == rules[i].0
  {
    if rules == [] then Ok([])
    else
      var v :- AnnotateRule(rules[0].1);
      var rest :- Annotated(rules[1..]);
      Ok([(rules[0].0, v)] + rest)
  }

  /** The loop gets through exactly when every rule is an array, null or false. */
  lemma {:induction false} AnnotatedOk(rules: seq<Rule>)
    ensures Annotated(rules).Ok? <==>
      forall i :: 0 <= i < |rules| ==> rules[i].1.Null? || rules[i].1 == Bool(false) || rules[i].1.Arr?
  {
    if rules != [] {
      AnnotatedOk(rules[1..]);
      assert forall i :: 1 <= i < |rules| ==> rules[i] == rules[1..][i - 1];
    }
  }

  /** Entry `i` of the annotated list, in terms of rule `i` alone. */
  lemma {:induction false} AnnotatedAt(rules: seq<Rule>, i: nat)
    requires i < |rules| && Annotated(rules).Ok?
    ensures AnnotateRule(rules[i].1).Ok?
    ensures Annotated(rules).value[i] == (rules[i].0, AnnotateRule(rules[i].1).value)
  {
    if i > 0 {
      AnnotatedAt(rules[1..], i - 1);
      assert Annotated(rules).value[i] == Annotated(rules[1..]).value[i - 1];
    }
  }

  /** The first rule the loop cannot write decides the exception. */
  lemma {:induction false} AnnotatedFailsAt(rules: seq<Rule>, i: nat)
    requires i < |rules| && AnnotateRule(rules[i].1).Err?
    requires forall j :: 0 <= j < i ==> AnnotateRule(rules[j].1).Ok?
    ensures Annotated(rules) == Err(AnnotateRule(rules[i].1).error)
  {
    if i > 0 {
      assert AnnotateRule(rules[0].1).Ok?;
      AnnotatedFailsAt(rules[1..], i - 1);
    }
  }

  /**
   * After the loop every rule whose second element is `required` carries
   * msg `{attr}必填`, every other one `{attr}格式错误`, and every other key
   * of the rule reads what it read before.
   */
  lemma AnnotatedMessages(rules: seq<Rule>, i: nat, j: Key)
    requires i < |rules| && Annotated(rules).Ok?
    ensures Annotated(rules).value[i].1.Arr?
    ensures Get(Annotated(rules).value[i].1.entries, StrKey("msg"))
            == Str(if IsRequired(Second(rules[i].1)) then RequiredMessage else FormatMessage)
    ensures j != StrKey("msg") ==>
      Get(Annotated(rules).value[i].1.entries, j) == if rules[i].1.Arr? then Get(rules[i].1.entries, j) else Null
  {
    AnnotatedAt(rules, i);
    SetKeySpec(rules[i].1, StrKey("msg"), Str(MessageFor(rules[i].1)));
  }

  /**
   * `Check($data, $rule)`: the by-reference loop over the rules, then the
   * validator; `validator` returns the first error of a failed validation.
   */
  method Check(data: PArray, rules: seq<Rule>, validator: (PArray, seq<Rule>) -> Option<string>)
    returns (r: Result<()>)
    ensures Annotated(rules).Err? ==> r == Err(Annotated(rules).error)
    ensures Annotated(rules).Ok? ==> (r.Err? <==> validator(data, Annotated(rules).value).Some?)
    ensures Annotated(rules).Ok? && r.Err? ==> r.error == Thrown(validator(data, Annotated(rules).value).value)
  {
    var rule := rules;
    var i := 0;
    while i < |rule|
      invariant 0 <= i <= |rule| == |rules|
      invariant forall j :: 0 <= j < i ==>
        AnnotateRule(rules[j].1).Ok? && rule[j] == (rules[j].0, AnnotateRule(rules[j].1).value)
      invariant forall j :: i <= j < |rule| ==> rule[j] == rules[j]
    {
      var v := rule[i].1;
      // `$v[1]` reads null, with a warning, on anything but an array.
      var msg := if v.Arr? && IsRequired(Get(v.entries, IntKey(1))) then RequiredMessage else FormatMessage;
      var w := SetKey(v, StrKey("msg"), Str(msg));
      if w.Err? {
        AnnotatedFailsAt(rules, i);
        return Err(w.error);
      }
      rule := rule[i := (rule[i].0, w.value)];
      i := i + 1;
    }
    AnnotatedOk(rules);
    forall j | 0 <= j < |rules| ensures rule[j] == Annotated(rules).value[j] {
      AnnotatedAt(rules, j);
    }
    assert rule == Annotated(rules).value;
    var fail := validator(data, rule);
    if fail.Some? {
      return Err(Thrown(fail.value));
    }
    return Ok(());
  }

  // ---------------------------------------------------------------------
  // Filtration

  /** `Filtration($data, $message)`: the key filter, one `$returnData[$k] = $data[$k]` at a time. */
  function Filtered(data: PArray, message: PArray): PArray {
    if message == [] then []
    else
      var k := message[|message| - 1].0;
      var before := Filtered(data, message[..|message| - 1]);
      if !Empty(Get(data, k)) then Put(before, k, Get(data, k)) else before
  }

  /** The entries of `data` whose keys `message` lists and whose values are not empty, in `message` order. */
  function Kept(data: PArray, message: PArray): (r: PArray)
    ensures |r| <= |message|
  {
    if message == [] then []
    else
      var k := message[|message| - 1].0;
      Kept(data, message[..|message| - 1]) + (if !Empty(Get(data, k)) then [(k, Get(data, k))] else [])
  }

  /** Every key `Kept` holds comes from `message`. */
  lemma {:induction false} KeptKeys(data: PArray, message: PArray)
    ensures forall x :: x in Kept(data, message) ==> HasKey(message, x.0)
  {
    if message != [] {
      var m := message[..|message| - 1];
      KeptKeys(data, m);
      forall x | x in Kept(data, message)
        ensures HasKey(message, x.0)
      {
        if x in Kept(data, m) {
          var i :| 0 <= i < |m| && m[i].0 == x.0;
          assert message[i] == m[i];
        } else {
          assert message[|message| - 1].0 == x.0;
        }
      }
    }
  }

  /** For a PHP array `$message`, the loop builds exactly `Kept`. */
  lemma {:induction false} FilteredIsKept(data: PArray, message: PArray)
    requires UniqueKeys(message)
    ensures Filtered(data, message) == Kept(data, message)
  {
    if message != [] {
      var m := message[..|message| - 1];
      var k := message[|message| - 1].0;
      assert UniqueKeys(m);
      FilteredIsKept(data, m);
      KeptKeys(data, m);
      assert !HasKey(Kept(data, m), k) by {
        forall j | 0 <= j < |Kept(data, m)|
          ensures Kept(data, m)[j].0 != k
        {
          assert Kept(data, m)[j] in Kept(data, m);
          var i :| 0 <= i < |m| && m[i].0 == Kept(data, m)[j].0;
          assert message[i] == m[i];
        }
      }
    }
  }

  /** Whether the result holds a value for `k`. */
  lemma {:induction false} KeptHas(data: PArray, message: PArray, k: Key)
    ensures HasKey(Kept(data, message), k) <==> HasKey(message, k) && !Empty(Get(data, k))
  {
    if message != [] {
      var m := message[..|message| - 1];
      var last := message[|message| - 1].0;
      KeptHas(data, m, k);
      assert message == m + [message[|message| - 1]];
      HasKeyAppend(m, [message[|message| - 1]], k);
      var tail: PArray := if !Empty(Get(data, last)) then [(last, Get(data, last))] else [];
      HasKeyAppend(Kept(data, m), tail, k);
      if last == k {
        assert [message[|message| - 1]][0].0 == k;
        if tail != [] {
          assert tail[0].0 == k;
        }
      }
    }
  }

  /** Every value in the result is `data`'s non-empty value for its key. */
  lemma {:induction false} KeptValues(data: PArray, message: PArray)
    ensures forall x :: x in Kept(data, message) ==> x.1 == Get(data, x.0) && !Empty(x.1)
  {
    if message != [] {
      KeptValues(data, message[..|message| - 1]);
    }
  }

  /** A key is in a concatenation when it is in one of the parts. */
  lemma HasKeyAppend(a: PArray, b: PArray, k: Key)
    ensures HasKey(a + b, k) <==> HasKey(a, k) || HasKey(b, k)
  {
    if HasKey(a + b, k) {
      var i :| 0 <= i < |a + b| && (a + b)[i].0 == k;
      if i >= |a| {
        assert b[i - |a|].0 == k;
      }
    }
    if HasKey(b, k) {
      var i :| 0 <= i < |b| && b[i].0 == k;
      assert (a + b)[|a| + i].0 == k;
    }
    if HasKey(a, k) {
      var i :| 0 <= i < |a| && a[i].0 == k;
      assert (a + b)[i].0 == k;
    }
  }

  /** Keys in the result appear in the order `message` lists them. */
  lemma {:induction false} KeptOrder(data: PArray, message: PArray)
    requires UniqueKeys(message)
    ensures forall i, j :: 0 <= i < j < |Kept(data, message)| ==>
              HasKey(message, Kept(data, message)[i].0) && HasKey(message, Kept(data, message)[j].0)
              && IndexOf(message, Kept(data, message)[i].0) < IndexOf(message, Kept(data, message)[j].0)
  {
    if message != [] {
      var m := message[..|message| - 1];
      var r := Kept(data, message);
      var n := |Kept(data, m)|;
      var last := message[|message| - 1].0;
      assert r == Kept(data, m) + (if !Empty(Get(data, last)) then [(last, Get(data, last))] else []);
      assert UniqueKeys(m);
      KeptOrder(data, m);
      KeptKeys(data, m);
      forall i | 0 <= i < n
        ensures HasKey(message, r[i].0) && IndexOf(message, r[i].0) == IndexOf(m, r[i].0)
        ensures IndexOf(m, r[i].0) < |message| - 1
      {
        assert r[i] == Kept(data, m)[i];
        assert r[i] in Kept(data, m);
        IndexOfPrefix(message, m, r[i].0);
      }
      if |r| > n {
        var k := message[|message| - 1].0;
        assert r[n].0 == k;
        assert HasKey(message, k);
        assert forall q :: 0 <= q < |message| - 1 ==> message[q].0 != k;
        assert IndexOf(message, k) == |message| - 1;
      }
      forall i, j | 0 <= i < j < |r|
        ensures HasKey(message, r[i].0) && HasKey(message, r[j].0)
                && IndexOf(message, r[i].0) < IndexOf(message, r[j].0)
      {
        assert r[i] == Kept(data, m)[i];
        if j < n {
          assert r[j] == Kept(data, m)[j];
          assert IndexOf(m, r[i].0) < IndexOf(m, r[j].0);
        } else {
          assert j == n && r[j].0 == last;
          assert IndexOf(message, last) == |message| - 1;
        }
      }
    } else {
      assert Kept(data, message) == [];
    }
  }

  /** A key found in a prefix is found at the same position in the whole array. */
  lemma IndexOfPrefix(whole: PArray, prefix: PArray, k: Key)
    requires |prefix| <= |whole| && prefix == whole[..|prefix|] && HasKey(prefix, k)
    ensures HasKey(whole, k) && IndexOf(whole, k) == IndexOf(prefix, k)
  {
    var p := IndexOf(prefix, k);
    assert whole[p] == prefix[p];
    assert forall q :: 0 <= q < p ==> whole[q] == prefix[q];
  }

  /** Filtering an already filtered array with the same message changes nothing. */
  lemma KeptIdempotent(data: PArray, message: PArray)
    ensures Kept(Kept(data, message), message) == Kept(data, message)
  {
    assert message[..|message|] == message;
    KeptLookup(data, message, message);
  }

  /** `Kept(Kept(data, message), m)` for a prefix `m` is `Kept(data, m)`. */
  lemma {:induction false} KeptLookup(data: PArray, message: PArray, m: PArray)
    requires |m| <= |message| && m == message[..|m|]
    ensures Kept(Kept(data, message), m) == Kept(data, m)
    decreases |m|
  {
    if m != [] {
      var m' := m[..|m| - 1];
      var k := m[|m| - 1].0;
      assert m' == message[..|m'|];
      KeptLookup(data, message, m');
      KeptHas(data, message, k);
      KeptValues(data, message);
      assert HasKey(message, k) by {
        assert message[|m| - 1].0 == k;
      }
      var r := Kept(data, message);
      if !Empty(Get(data, k)) {
        var j := IndexOf(r, k);
        assert r[j] in r;
        assert Get(r, k) == Get(data, k);
      } else {
        assert !HasKey(r, k);
      }
    }
  }

  /**
   * `Filtration($data, $message)`: the loop over `$message` copying each
   * non-empty `$data[$k]` into `$returnData`.
   */
  method Filtration(data: PArray, message: PArray) returns (r: PArray)
    ensures r == Filtered(data, message)
  {
    r := [];
    var i := 0;
    while i < |message|
      invariant 0 <= i <= |message|
      invariant r == Filtered(data, message[..i])
    {
      var k := message[i].0;
      assert message[..i + 1][..i] == message[..i];
      if !Empty(Get(data, k)) {
        r := Put(r, k, Get(data, k));
      }
      i := i + 1;
    }
    assert message[..i] == message;
  }
}
