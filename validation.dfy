/** Request-body validation as the global validation pipe performs it: each DTO
    property carries a list of class-validator decorators; `IsOptional` lets a
    `null` or `undefined` value skip the others; and, with `whitelist` and
    `forbidNonWhitelisted` set, a body key that no property declares is an error. */
module Validation {
  import opened Values

  /** A class-validator decorator on a DTO property. */
  datatype Constraint =
    | IsOptional             // checks nothing itself; see `Skipped`
    | IsNotEmpty
    | IsString
    | IsNumber
    | IsInt
    | Min(bound: real)
    | IsArray
    | ArrayNotEmpty
    | Each(inner: Constraint) // the same decorator with `{ each: true }`

  /** One DTO property and its decorators, in declaration order. */
  datatype PropertyRule = PropertyRule(key: string, constraints: seq<Constraint>)

  /** A DTO class: its properties in declaration order. */
  type Schema = seq<PropertyRule>

  /** A parsed JSON request body. */
  type Body = map<string, Value>

  /** One reported validation error. */
  datatype Violation = Failed(property: string, constraint: Constraint)

  /** `body.key`, `undefined` for a missing key. */
  function Get(body: Body, key: string): (v: Value)
    ensures key !in body ==> v == Undefined
    ensures key in body ==> v == body[key]
  {
    if key in body then body[key] else Undefined
  }

  /** Whether one decorator accepts a value. With `each`, an array is checked
      element by element and any other value is checked itself. */
  predicate Holds(c: Constraint, v: Value)
    decreases c
  {
    match c
    case IsOptional => true
    case IsNotEmpty => v != Str("") && !Nullish(v)
    case IsString => v.Str?
    case IsNumber => v.Num?
    case IsInt => v.Num? && Integral(v.n)
    case Min(bound) => v.Num? && v.n >= bound
    case IsArray => v.Arr?
    case ArrayNotEmpty => v.Arr? && |v.items| > 0
    case Each(inner) =>
      if v.Arr? then forall i :: 0 <= i < |v.items| ==> Holds(inner, v.items[i])
      else Holds(inner, v)
  }

  /** An optional property whose value is `null` or `undefined` is not checked. */
  predicate Skipped(cs: seq<Constraint>, v: Value) {
    IsOptional in cs && Nullish(v)
  }

  /** The keys the DTO declares. */
  function DeclaredKeys(schema: Schema): set<string> {
    set i | 0 <= i < |schema| :: schema[i].key
  }

  /** The decorators in `cs` that reject `v`, reported in order. Every report names
      a decorator of `cs` that does reject `v`; `FailuresComplete` shows that every
      such decorator is reported. */
  function Failures(key: string, cs: seq<Constraint>, v: Value): (r: seq<Violation>)
    ensures forall x :: x in r ==> x.property == key && x.constraint in cs && !Holds(x.constraint, v)
  {
    if cs == [] then []
    else (if Holds(cs[0], v) then [] else [Failed(key, cs[0])]) + Failures(key, cs[1..], v)
  }

  /** The errors reported for one property. */
  function PropertyFailures(rule: PropertyRule, body: Body): seq<Violation> {
    var v := Get(body, rule.key);
    if Skipped(rule.constraints, v) then [] else Failures(rule.key, rule.constraints, v)
  }

  /** The errors reported for every declared property, in declaration order. Every
      report is about a declared property whose value the named decorator rejects;
      `ViolationsSound` pins each report to an unskipped property and one of its own
      decorators, and `ViolationsComplete` shows that no such error is left out. */
  function Violations(schema: Schema, body: Body): (r: seq<Violation>)
    ensures forall x :: x in r ==> x.property in DeclaredKeys(schema) && !Holds(x.constraint, Get(body, x.property))
  {
    if schema == [] then []
    else
      assert forall k :: k in DeclaredKeys(schema[1..]) ==> k in DeclaredKeys(schema) by {
        forall k | k in DeclaredKeys(schema[1..]) ensures k in DeclaredKeys(schema) {
          var i :| 0 <= i < |schema[1..]| && schema[1..][i].key == k;
          assert schema[i + 1].key == k;
        }
      }
      PropertyFailures(schema[0], body) + Violations(schema[1..], body)
  }

  /** The keys the body carries that the DTO does not declare. */
  function Forbidden(schema: Schema, body: Body): set<string> {
    body.Keys - DeclaredKeys(schema)
  }

  /** The validation pipe lets the body through. */
  predicate Accepts(schema: Schema, body: Body) {
    Violations(schema, body) == [] && Forbidden(schema, body) == {}
  }

  /** Every decorator of `cs` accepts `v`. */
  predicate AllHold(cs: seq<Constraint>, v: Value) {
    forall j :: 0 <= j < |cs| ==> Holds(cs[j], v)
  }

  /** Reference reading of one property's decorators: skipped, or all satisfied. */
  predicate RuleHolds(rule: PropertyRule, body: Body) {
    var v := Get(body, rule.key);
    Skipped(rule.constraints, v) || AllHold(rule.constraints, v)
  }

  lemma AllHoldOfTwo(a: Constraint, b: Constraint, v: Value)
    ensures AllHold([a, b], v) <==> Holds(a, v) && Holds(b, v)
  {
    assert [a, b][0] == a && [a, b][1] == b;
  }

  lemma AllHoldOfThree(a: Constraint, b: Constraint, c: Constraint, v: Value)
    ensures AllHold([a, b, c], v) <==> Holds(a, v) && Holds(b, v) && Holds(c, v)
  {
    assert [a, b, c][0] == a && [a, b, c][1] == b && [a, b, c][2] == c;
  }

  lemma AllHoldOfFour(a: Constraint, b: Constraint, c: Constraint, d: Constraint, v: Value)
    ensures AllHold([a, b, c, d], v) <==> Holds(a, v) && Holds(b, v) && Holds(c, v) && Holds(d, v)
  {
    assert [a, b, c, d][0] == a && [a, b, c, d][1] == b && [a, b, c, d][2] == c && [a, b, c, d][3] == d;
  }

  /** No failure is reported exactly when every decorator accepts the value. */
  lemma {:induction false} FailuresEmptyIff(key: string, cs: seq<Constraint>, v: Value)
    ensures Failures(key, cs, v) == [] <==> AllHold(cs, v)
  {
    if cs != [] {
      FailuresEmptyIff(key, cs[1..], v);
      assert forall j :: 1 <= j < |cs| ==> cs[j] == cs[1..][j - 1];
    }
  }

  /** No violation is reported exactly when every property's decorators hold. */
  lemma {:induction false} ViolationsEmptyIff(schema: Schema, body: Body)
    ensures Violations(schema, body) == [] <==> forall i :: 0 <= i < |schema| ==> RuleHolds(schema[i], body)
  {
    if schema != [] {
      ViolationsEmptyIff(schema[1..], body);
      FailuresEmptyIff(schema[0].key, schema[0].constraints, Get(body, schema[0].key));
      assert forall i :: 1 <= i < |schema| ==> schema[i] == schema[1..][i - 1];
    }
  }

  /** Every decorator of `cs` that rejects `v` is reported. */
  lemma {:induction false} FailuresComplete(key: string, cs: seq<Constraint>, v: Value, c: Constraint)
    requires c in cs && !Holds(c, v)
    ensures Failed(key, c) in Failures(key, cs, v)
  {
    if cs[0] != c {
      FailuresComplete(key, cs[1..], v, c);
    }
  }

  /** The pipe does not stop at the first error: every decorator that rejects the
      value of a property it does not skip is reported. */
  lemma {:induction false} ViolationsComplete(schema: Schema, body: Body, i: int, c: Constraint)
    requires 0 <= i < |schema| && c in schema[i].constraints
    requires !Skipped(schema[i].constraints, Get(body, schema[i].key))
    requires !Holds(c, Get(body, schema[i].key))
    ensures Failed(schema[i].key, c) in Violations(schema, body)
  {
    if i == 0 {
      FailuresComplete(schema[0].key, schema[0].constraints, Get(body, schema[0].key), c);
    } else {
      assert schema[i] == schema[1..][i - 1];
      ViolationsComplete(schema[1..], body, i - 1, c);
    }
  }

  /** Every failure reported for a value is a decorator of `cs` that rejects it. */
  lemma {:induction false} FailuresSound(key: string, cs: seq<Constraint>, v: Value, x: Violation)
    requires x in Failures(key, cs, v)
    ensures x.property == key && x.constraint in cs && !Holds(x.constraint, v)
  {
    if cs != [] && x !in (if Holds(cs[0], v) then [] else [Failed(key, cs[0])]) {
      FailuresSound(key, cs[1..], v, x);
    }
  }

  /** Every reported error is one the pipe makes: it names a declared property that
      is not skipped, and one of that property's own decorators that rejects its value. */
  lemma {:induction false} ViolationsSound(schema: Schema, body: Body, x: Violation)
    requires x in Violations(schema, body)
    ensures exists i ::
      && 0 <= i < |schema| && schema[i].key == x.property
      && x.constraint in schema[i].constraints
      && !Skipped(schema[i].constraints, Get(body, schema[i].key))
      && !Holds(x.constraint, Get(body, x.property))
  {
    var rule := schema[0];
    if x in PropertyFailures(rule, body) {
      FailuresSound(rule.key, rule.constraints, Get(body, rule.key), x);
      assert 0 < |schema| && schema[0].key == x.property;
    } else {
      ViolationsSound(schema[1..], body, x);
      var j :| 0 <= j < |schema[1..]| && schema[1..][j].key == x.property
        && x.constraint in schema[1..][j].constraints
        && !Skipped(schema[1..][j].constraints, Get(body, schema[1..][j].key))
        && !Holds(x.constraint, Get(body, x.property));
      assert schema[j + 1] == schema[1..][j];
    }
  }

  /** The pipe accepts a body exactly when it carries only declared keys and every
      property's decorators hold. */
  lemma AcceptsIff(schema: Schema, body: Body)
    ensures Accepts(schema, body) <==>
      body.Keys <= DeclaredKeys(schema) && forall i :: 0 <= i < |schema| ==> RuleHolds(schema[i], body)
  {
    ViolationsEmptyIff(schema, body);
    if Forbidden(schema, body) == {} {
      forall k | k in body.Keys ensures k in DeclaredKeys(schema) {
        assert k !in Forbidden(schema, body);
      }
    } else {
      var k :| k in Forbidden(schema, body);
      assert k in body.Keys && k !in DeclaredKeys(schema);
    }
  }

  // Field conditions the DTOs are stated with.

  predicate NonEmptyString(v: Value) {
    v.Str? && v.s != ""
  }

  predicate NonNegativeNumber(v: Value) {
    v.Num? && v.n >= 0.0
  }

  predicate OptionalString(v: Value) {
    Nullish(v) || v.Str?
  }

  predicate OptionalNumber(v: Value) {
    Nullish(v) || v.Num?
  }

  predicate OptionalNonNegativeNumber(v: Value) {
    Nullish(v) || NonNegativeNumber(v)
  }
}
