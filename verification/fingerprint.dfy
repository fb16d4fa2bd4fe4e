/**
 * `hashContent` of the RSS ingestion service: the parts are filtered by
 * truthiness, joined with newlines, cut to the first 1,000,000 characters
 * and hashed with SHA-256. SHA-256 itself is a parameter (`sha256`); what is
 * modelled and proved here is the string that is handed to it.
 */
module Fingerprint {
  import opened JsValues

  /** The most characters `slice(0, 1_000_000)` keeps. */
  const MaxHashInput: nat := 1000000

  /** `parts.filter(Boolean)` */
  function TruthyParts(parts: seq<Value>): (r: seq<Value>)
    ensures |r| <= |parts|
    ensures forall i :: 0 <= i < |r| ==> Truthy(r[i])
    ensures forall x :: x in r ==> x in parts
    ensures forall i :: 0 <= i < |parts| && Truthy(parts[i]) ==> parts[i] in r
  {
    if parts == [] then []
    else if Truthy(parts[0]) then [parts[0]] + TruthyParts(parts[1..])
    else TruthyParts(parts[1..])
  }

  /** `values.join('\n')`, each value converted with `String`: the first value, then a newline before each further one. */
  function JoinLines(values: seq<Value>): (r: string)
    ensures values == [] ==> r == ""
    ensures values != [] ==> ToStr(values[0]) <= r
    ensures |values| >= 2 ==> |ToStr(values[0])| < |r| && r[|ToStr(values[0])|] == '\n'
  {
    if values == [] then ""
    else if |values| == 1 then ToStr(values[0])
    else ToStr(values[0]) + "\n" + JoinLines(values[1..])
  }

  /** `(parts.filter(Boolean).join('\n') || '').slice(0, 1_000_000)`: what gets hashed. */
  function HashInput(parts: seq<Value>): (r: string)
    ensures |r| <= MaxHashInput
    ensures r <= JoinLines(TruthyParts(parts))
    ensures |JoinLines(TruthyParts(parts))| <= MaxHashInput ==> r == JoinLines(TruthyParts(parts))
    ensures |JoinLines(TruthyParts(parts))| > MaxHashInput ==> |r| == MaxHashInput
  {
    var joined := JoinLines(TruthyParts(parts));
    if |joined| <= MaxHashInput then joined else joined[..MaxHashInput]
  }

  /** `hashContent(parts)`, with the digest function given as `sha256`. */
  function HashContent(sha256: string -> string, parts: seq<Value>): (r: string)
    ensures r == sha256(HashInput(parts))
  {
    sha256(HashInput(parts))
  }

  // ---------------------------------------------------------------------
  // Properties
  // ---------------------------------------------------------------------

  /** The filter distributes over concatenation. */
  lemma {:induction false} TruthyPartsAppend(a: seq<Value>, b: seq<Value>)
    ensures TruthyParts(a + b) == TruthyParts(a) + TruthyParts(b)
    decreases |a|
  {
    if a != [] {
      assert (a + b)[1..] == a[1..] + b;
      TruthyPartsAppend(a[1..], b);
    } else {
      assert a + b == b;
    }
  }

  /** The filter keeps exactly the truthy parts, in their order. */
  lemma {:induction false} TruthyPartsKeepsTruthy(parts: seq<Value>)
    requires forall i :: 0 <= i < |parts| ==> Truthy(parts[i])
    ensures TruthyParts(parts) == parts
    decreases |parts|
  {
    if parts != [] {
      TruthyPartsKeepsTruthy(parts[1..]);
    }
  }

  /**
   * A falsy part (`undefined`, `null`, `''`, `0`, `false`) changes nothing,
   * wherever it is inserted.
   */
  lemma FalsyPartIgnored(a: seq<Value>, x: Value, b: seq<Value>)
    requires !Truthy(x)
    ensures HashInput(a + [x] + b) == HashInput(a + b)
  {
    TruthyPartsAppend(a + [x], b);
    TruthyPartsAppend(a, [x]);
    TruthyPartsAppend(a, b);
    assert TruthyParts([x]) == [];
    assert TruthyParts(a) + [] == TruthyParts(a);
    assert TruthyParts(a + [x] + b) == TruthyParts(a + b);
  }

  /** Joins of newline-free lines split at the first newline. */
  lemma SplitAtNewline(x: string, r: string, y: string, q: string)
    requires '\n' !in x && '\n' !in y
    requires x + "\n" + r == y + "\n" + q
    ensures x == y && r == q
  {
    var s := x + "\n" + r;
    assert forall i :: 0 <= i < |x| ==> s[i] == x[i];
    assert forall i :: 0 <= i < |y| ==> s[i] == y[i];
    assert s[|x|] == '\n' && s[|y|] == '\n';
    assert |x| == |y|;
    assert x == s[..|x|] == y;
    assert r == s[|x| + 1..] == q;
  }

  predicate PlainPart(v: Value) {
    v.Str? && v.s != "" && '\n' !in v.s
  }

  /** How many lines a join of plain parts holds shows in the join itself. */
  lemma JoinLinesShape(p: seq<Value>)
    requires forall i :: 0 <= i < |p| ==> PlainPart(p[i])
    ensures p == [] <==> JoinLines(p) == ""
    ensures |p| == 1 ==> '\n' !in JoinLines(p)
    ensures |p| > 1 ==> '\n' in JoinLines(p)
  {
    if |p| > 1 {
      assert JoinLines(p)[|p[0].s|] == '\n';
    }
  }

  /** Joining non-empty newline-free strings loses nothing: equal joins come from equal lists. */
  lemma {:induction false} JoinLinesInjective(p: seq<Value>, q: seq<Value>)
    requires forall i :: 0 <= i < |p| ==> PlainPart(p[i])
    requires forall i :: 0 <= i < |q| ==> PlainPart(q[i])
    requires JoinLines(p) == JoinLines(q)
    ensures p == q
    decreases |p|
  {
    JoinLinesShape(p);
    JoinLinesShape(q);
    if |p| > 1 && |q| > 1 {
      SplitAtNewline(p[0].s, JoinLines(p[1..]), q[0].s, JoinLines(q[1..]));
      JoinLinesInjective(p[1..], q[1..]);
      assert p == [p[0]] + p[1..] && q == [q[0]] + q[1..];
    }
  }

  /**
   * Below the cap, fields that are non-empty single-line strings are
   * recovered from the hashed string: distinct such field lists never
   * hand the same string to SHA-256.
   */
  lemma HashInputInjective(p: seq<Value>, q: seq<Value>)
    requires forall i :: 0 <= i < |p| ==> PlainPart(p[i])
    requires forall i :: 0 <= i < |q| ==> PlainPart(q[i])
    requires |JoinLines(p)| <= MaxHashInput && |JoinLines(q)| <= MaxHashInput
    requires HashInput(p) == HashInput(q)
    ensures p == q
  {
    TruthyPartsKeepsTruthy(p);
    TruthyPartsKeepsTruthy(q);
    JoinLinesInjective(p, q);
  }

  /**
   * The position of a field is not part of the hashed string: a guid with
   * no link and a link with no guid give the same input, so two items that
   * differ in which field holds a value can share a fingerprint.
   */
  lemma FieldPositionNotHashed(x: Value, title: Value, text: Value)
    requires Truthy(x)
    ensures HashInput([x, Undefined, title, text]) == HashInput([Undefined, x, title, text])
    ensures [x, Undefined, title, text] != [Undefined, x, title, text]
  {
    FalsyPartIgnored([x], Undefined, [title, text]);
    FalsyPartIgnored([], Undefined, [x, title, text]);
    assert [x] + [Undefined] + [title, text] == [x, Undefined, title, text];
    assert [] + [Undefined] + [x, title, text] == [Undefined, x, title, text];
    assert [x] + [title, text] == [] + [x, title, text];
  }
}
