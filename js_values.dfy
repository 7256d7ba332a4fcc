/**
 * The fragment of JavaScript's dynamic values and built-in operations that the
 * filter widget relies on: truthiness, `typeof ... === "object"`, plain objects
 * as ordered property lists, property assignment and object spread, property
 * reads, `Object.keys`, `toString`, and the string methods `trim`,
 * `toLowerCase` and `toUpperCase`.
 */
module JsValues {

  datatype Option<+T> = None | Some(value: T)

  /** How an evaluation ends: with a value, or by throwing (a rejected promise). */
  datatype Completion<+T> = Normal(value: T) | Abrupt

  /** One own property of an object: its name and its value. */
  datatype Entry<+V> = Entry(key: string, val: V)

  /**
   * A JavaScript value. Objects keep their properties in insertion order;
   * numbers are integers (no fractions, no NaN).
   */
  datatype Value =
    | Undefined
    | Null
    | Bool(b: bool)
    | Num(n: int)
    | Str(s: string)
    | Arr(items: seq<Value>)
    | Obj(entries: seq<Entry<Value>>)

  /** `!!v` */
  predicate Truthy(v: Value)
  {
    match v
    case Undefined => false
    case Null => false
    case Bool(b) => b
    case Num(n) => n != 0
    case Str(s) => s != ""
    case Arr(_) => true
    case Obj(_) => true
  }

  /** `a || b` */
  function Or(a: Value, b: Value): (r: Value)
    ensures Truthy(a) ==> r == a
    ensures !Truthy(a) ==> r == b
    ensures Truthy(r) <==> Truthy(a) || Truthy(b)
  {
    if Truthy(a) then a else b
  }

  /** `typeof v === "object"` (true of null and of arrays too) */
  predicate IsObjectType(v: Value)
  {
    v.Null? || v.Arr? || v.Obj?
  }

  /** `v === null || v === undefined` */
  predicate IsNullish(v: Value)
  {
    v.Null? || v.Undefined?
  }

  // ---------------------------------------------------------------------------
  // Objects as ordered property lists
  // ---------------------------------------------------------------------------

  function Keys<V>(es: seq<Entry<V>>): (ks: seq<string>)
    ensures |ks| == |es|
    ensures forall i :: 0 <= i < |es| ==> ks[i] == es[i].key
  {
    if es == [] then [] else [es[0].key] + Keys(es[1..])
  }

  /** No property name occurs twice, as in every JavaScript object. */
  predicate UniqueKeys<V>(es: seq<Entry<V>>)
  {
    forall i, j :: 0 <= i < j < |es| ==> es[i].key != es[j].key
  }

  /** The value of own property `k`, if there is one. */
  function Lookup<V>(es: seq<Entry<V>>, k: string): (r: Option<V>)
    ensures r.None? <==> k !in Keys(es)
  {
    if es == [] then None
    else if es[0].key == k then Some(es[0].val)
    else Lookup(es[1..], k)
  }

  /** `o[k] = v`: an existing property keeps its place, a new one goes last. */
  function Put<V>(es: seq<Entry<V>>, k: string, v: V): seq<Entry<V>>
  {
    if es == [] then [Entry(k, v)]
    else if es[0].key == k then [Entry(k, v)] + es[1..]
    else [es[0]] + Put(es[1..], k, v)
  }

  /** Assigning keeps the names in place and appends a new name at the end. */
  lemma {:induction false} PutKeys<V>(es: seq<Entry<V>>, k: string, v: V)
    ensures Keys(Put(es, k, v)) == if k in Keys(es) then Keys(es) else Keys(es) + [k]
  {
    if es != [] {
      assert Keys(es) == [es[0].key] + Keys(es[1..]);
      if es[0].key == k {
        assert Put(es, k, v)[1..] == es[1..];
      } else {
        PutKeys(es[1..], k, v);
        assert k in Keys(es) <==> k in Keys(es[1..]);
      }
    }
  }

  /** `{...target, ...source}` for a source with the given own properties. */
  function Assign<V>(target: seq<Entry<V>>, source: seq<Entry<V>>): seq<Entry<V>>
    decreases |source|
  {
    if source == [] then target
    else Assign(Put(target, source[0].key, source[0].val), source[1..])
  }

  /** The value of the LAST property named `k` in `es` (what a later spread keeps). */
  function LastLookup<V>(es: seq<Entry<V>>, k: string): Option<V>
  {
    if es == [] then None
    else if es[|es| - 1].key == k then Some(es[|es| - 1].val)
    else LastLookup(es[..|es| - 1], k)
  }

  lemma {:induction false} PutLookup<V>(es: seq<Entry<V>>, k: string, v: V, j: string)
    ensures Lookup(Put(es, k, v), j) == if j == k then Some(v) else Lookup(es, j)
  {
    if es != [] && es[0].key != k {
      PutLookup(es[1..], k, v, j);
    }
  }

  lemma {:induction false} PutUnique<V>(es: seq<Entry<V>>, k: string, v: V)
    requires UniqueKeys(es)
    ensures UniqueKeys(Put(es, k, v))
  {
    var r := Put(es, k, v);
    PutKeys(es, k, v);
    forall i, j | 0 <= i < j < |r| ensures r[i].key != r[j].key {
      assert Keys(r)[i] == r[i].key && Keys(r)[j] == r[j].key;
      if k !in Keys(es) && j == |es| {
        assert Keys(es)[i] == es[i].key;
      } else {
        assert Keys(es)[i] == es[i].key && Keys(es)[j] == es[j].key;
      }
    }
  }

  /** With unique names, a lookup finds `v` exactly when `Entry(k, v)` is a property. */
  lemma {:induction false} LookupUnique<V>(es: seq<Entry<V>>, k: string, v: V)
    requires UniqueKeys(es)
    ensures Lookup(es, k) == Some(v) <==> Entry(k, v) in es
  {
    if es != [] {
      assert UniqueKeys(es[1..]) by {
        forall i, j | 0 <= i < j < |es[1..]| ensures es[1..][i].key != es[1..][j].key {
          assert es[1..][i] == es[i + 1] && es[1..][j] == es[j + 1];
        }
      }
      LookupUnique(es[1..], k, v);
      if es[0].key == k {
        forall i | 0 <= i < |es[1..]| ensures es[1..][i] != Entry(k, v) {
          assert es[1..][i] == es[i + 1];
        }
      }
      assert es == [es[0]] + es[1..];
    }
  }

  /**
   * Object spread: a property of `source` wins (its last occurrence), every
   * other property keeps its value in `target`.
   */
  lemma {:induction false} AssignLookup<V>(target: seq<Entry<V>>, source: seq<Entry<V>>, k: string)
    ensures Lookup(Assign(target, source), k) ==
      if LastLookup(source, k).Some? then LastLookup(source, k) else Lookup(target, k)
    decreases |source|
  {
    if source != [] {
      var t' := Put(target, source[0].key, source[0].val);
      AssignLookup(t', source[1..], k);
      PutLookup(target, source[0].key, source[0].val, k);
      LastLookupCons(source[0], source[1..], k);
      assert source == [source[0]] + source[1..];
    }
  }

  lemma {:induction false} LastLookupCons<V>(e: Entry<V>, rest: seq<Entry<V>>, k: string)
    ensures LastLookup([e] + rest, k) ==
      if LastLookup(rest, k).Some? then LastLookup(rest, k)
      else if e.key == k then Some(e.val) else None
    decreases |rest|
  {
    var s := [e] + rest;
    if rest != [] {
      assert s[|s| - 1] == rest[|rest| - 1];
      assert s[..|s| - 1] == [e] + rest[..|rest| - 1];
      LastLookupCons(e, rest[..|rest| - 1], k);
    } else {
      assert s[..|s| - 1] == [];
    }
  }

  lemma {:induction false} AssignKeys<V>(target: seq<Entry<V>>, source: seq<Entry<V>>, k: string)
    ensures k in Keys(Assign(target, source)) <==> k in Keys(target) || k in Keys(source)
    decreases |source|
  {
    if source != [] {
      AssignKeys(Put(target, source[0].key, source[0].val), source[1..], k);
      PutKeys(target, source[0].key, source[0].val);
      assert Keys(source) == [source[0].key] + Keys(source[1..]);
    }
  }

  // ---------------------------------------------------------------------------
  // Numbers as strings, Object.keys, property reads, toString
  // ---------------------------------------------------------------------------

  function DigitChar(d: nat): char
    requires d < 10
  {
    "0123456789"[d]
  }

  /** The decimal numeral of `n`, as `String(n)` writes it. */
  function Decimal(n: nat): (s: string)
    ensures |s| > 0
    decreases n
  {
    if n < 10 then [DigitChar(n)] else Decimal(n / 10) + [DigitChar(n % 10)]
  }

  /** The array index named by property name `k` in an array of length `n`. */
  function IndexOf(k: string, n: nat): (r: Option<nat>)
    ensures r.Some? ==> r.value < n && Decimal(r.value) == k
    ensures r.None? ==> forall i :: 0 <= i < n ==> Decimal(i) != k
  {
    if n == 0 then None
    else if Decimal(n - 1) == k then Some(n - 1)
    else IndexOf(k, n - 1)
  }

  /** `Object.keys(v).map(k => [k, v[k]])` for a value that is not null or undefined. */
  function OwnEntries(v: Value): (es: seq<Entry<Value>>)
    ensures v.Obj? ==> es == v.entries
    ensures v.Arr? ==> |es| == |v.items|
  {
    match v
    case Obj(entries) => entries
    case Arr(items) => seq(|items|, i requires 0 <= i < |items| => Entry(Decimal(i), items[i]))
    case Str(s) => seq(|s|, i requires 0 <= i < |s| => Entry(Decimal(i), Str([s[i]])))
    case _ => []
  }

  /**
   * `v[k]`: a TypeError on null and undefined; own properties of objects,
   * indices and `length` of arrays and strings; undefined otherwise.
   */
  function Property(v: Value, k: string): (r: Completion<Value>)
    ensures r.Abrupt? <==> IsNullish(v)
    ensures v.Obj? ==> r == Normal(match Lookup(v.entries, k) case Some(x) => x case None => Undefined)
  {
    match v
    case Undefined => Abrupt
    case Null => Abrupt
    case Obj(entries) =>
      Normal(match Lookup(entries, k) case Some(x) => x case None => Undefined)
    case Arr(items) =>
      if k == "length" then Normal(Num(|items|))
      else Normal(match IndexOf(k, |items|) case Some(i) => items[i] case None => Undefined)
    case Str(s) =>
      if k == "length" then Normal(Num(|s|))
      else Normal(match IndexOf(k, |s|) case Some(i) => Str([s[i]]) case None => Undefined)
    case _ => Normal(Undefined)
  }

  /** `v?.[k]`: undefined when `v` is null or undefined. */
  function OptionalProperty(v: Value, k: string): (r: Value)
    ensures IsNullish(v) ==> r == Undefined
    ensures !IsNullish(v) ==> Property(v, k) == Normal(r)
  {
    match Property(v, k)
    case Normal(x) => x
    case Abrupt => Undefined
  }

  /** `a.join(",")` for strings */
  function JoinComma(parts: seq<string>): string
  {
    if parts == [] then ""
    else if |parts| == 1 then parts[0]
    else JoinComma(parts[..|parts| - 1]) + "," + parts[|parts| - 1]
  }

  /** `v.toString()` for a value that is not null or undefined. */
  function ToString(v: Value): string
  {
    match v
    case Undefined => ""
    case Null => ""
    case Bool(b) => if b then "true" else "false"
    case Num(n) => if n < 0 then "-" + Decimal(-n) else Decimal(n)
    case Str(s) => s
    case Arr(items) =>
      // Array.prototype.toString: elements joined by commas, null and undefined as ""
      JoinComma(seq(|items|, i requires 0 <= i < |items| => ToString(items[i])))
    case Obj(_) => "[object Object]"
  }

  // ---------------------------------------------------------------------------
  // Strings
  // ---------------------------------------------------------------------------

  /** The characters `String.prototype.trim` removes: white space and line terminators. */
  predicate IsWhiteSpace(c: char)
  {
    || c == '\t' || c == '\n' || c == '\U{000B}' || c == '\U{000C}' || c == '\r' || c == ' '
    || c == '\U{00A0}' || c == '\U{1680}' || ('\U{2000}' <= c <= '\U{200A}')
    || c == '\U{2028}' || c == '\U{2029}' || c == '\U{202F}' || c == '\U{205F}'
    || c == '\U{3000}' || c == '\U{FEFF}'
  }

  function TrimStart(s: string): string
  {
    if s != [] && IsWhiteSpace(s[0]) then TrimStart(s[1..]) else s
  }

  function TrimEnd(s: string): string
  {
    if s != [] && IsWhiteSpace(s[|s| - 1]) then TrimEnd(s[..|s| - 1]) else s
  }

  /** `s.trim()` */
  function Trim(s: string): string
  {
    TrimEnd(TrimStart(s))
  }

  predicate AllWhiteSpace(s: string)
  {
    forall i :: 0 <= i < |s| ==> IsWhiteSpace(s[i])
  }

  lemma {:induction false} TrimStartEmpty(s: string)
    ensures TrimStart(s) == "" <==> AllWhiteSpace(s)
  {
    if s != [] {
      TrimStartEmpty(s[1..]);
      if IsWhiteSpace(s[0]) {
        assert AllWhiteSpace(s) <==> AllWhiteSpace(s[1..]) by {
          if AllWhiteSpace(s[1..]) {
            forall i | 0 <= i < |s| ensures IsWhiteSpace(s[i]) {
              if i > 0 { assert s[i] == s[1..][i - 1]; }
            }
          }
        }
      }
    }
  }

  lemma {:induction false} TrimEndEmpty(s: string)
    ensures TrimEnd(s) == "" <==> AllWhiteSpace(s)
  {
    if s != [] {
      var p := s[..|s| - 1];
      TrimEndEmpty(p);
      if IsWhiteSpace(s[|s| - 1]) {
        assert AllWhiteSpace(s) <==> AllWhiteSpace(p) by {
          if AllWhiteSpace(p) {
            forall i | 0 <= i < |s| ensures IsWhiteSpace(s[i]) {
              if i < |s| - 1 { assert s[i] == p[i]; }
            }
          }
        }
      }
    }
  }

  lemma {:induction false} TrimStartSuffix(s: string) returns (k: nat)
    ensures k <= |s| && TrimStart(s) == s[k..] && AllWhiteSpace(s[..k])
  {
    if s != [] && IsWhiteSpace(s[0]) {
      var k' := TrimStartSuffix(s[1..]);
      k := k' + 1;
      assert s[1..][k'..] == s[k..];
      forall i | 0 <= i < k ensures IsWhiteSpace(s[..k][i]) {
        if i > 0 { assert s[..k][i] == s[1..][..k'][i - 1]; }
      }
    } else {
      k := 0;
      assert s == s[0..];
    }
  }

  /** `s.trim() !== ""` exactly when `s` has a character that is not white space. */
  lemma TrimNonEmpty(s: string)
    ensures Trim(s) != "" <==> exists i :: 0 <= i < |s| && !IsWhiteSpace(s[i])
  {
    var k := TrimStartSuffix(s);
    TrimEndEmpty(TrimStart(s));
    if AllWhiteSpace(s[k..]) {
      forall i | 0 <= i < |s| ensures IsWhiteSpace(s[i]) {
        if i < k { assert s[i] == s[..k][i]; } else { assert s[i] == s[k..][i - k]; }
      }
    } else {
      var i :| 0 <= i < |s[k..]| && !IsWhiteSpace(s[k..][i]);
      assert s[k + i] == s[k..][i];
    }
  }

  predicate IsUpperAscii(c: char) { 'A' <= c <= 'Z' }

  predicate IsLowerAscii(c: char) { 'a' <= c <= 'z' }

  function LowerChar(c: char): (d: char)
    ensures !IsUpperAscii(d)
    ensures IsUpperAscii(c) ==> IsLowerAscii(d)
    ensures !IsUpperAscii(c) ==> d == c
  {
    if IsUpperAscii(c) then (c as int + 32) as char else c
  }

  function UpperChar(c: char): (d: char)
    ensures !IsLowerAscii(d)
    ensures IsLowerAscii(c) ==> IsUpperAscii(d)
    ensures !IsLowerAscii(c) ==> d == c
  {
    if IsLowerAscii(c) then (c as int - 32) as char else c
  }

  /** `s.toLowerCase()` on the ASCII letters */
  function ToLower(s: string): (r: string)
    ensures |r| == |s|
    ensures forall i :: 0 <= i < |s| ==> r[i] == LowerChar(s[i])
  {
    seq(|s|, i requires 0 <= i < |s| => LowerChar(s[i]))
  }

  /** `s.charAt(0).toUpperCase() + s.slice(1)` on the ASCII letters */
  function Capitalize(s: string): string
  {
    if s == "" then "" else [UpperChar(s[0])] + s[1..]
  }

  /** Capitalising keeps the length and every character but the first. */
  lemma CapitalizeShape(s: string)
    ensures |Capitalize(s)| == |s|
    ensures s != "" ==> Capitalize(s)[0] == UpperChar(s[0]) && Capitalize(s)[1..] == s[1..]
  {
  }

  /** `s.replace("$", "")`: the first `$` is removed, wherever it is. */
  function RemoveFirstDollar(s: string): string
  {
    if s == "" then ""
    else if s[0] == '$' then s[1..]
    else [s[0]] + RemoveFirstDollar(s[1..])
  }

  /** Exactly one character goes when a `$` occurs, and none otherwise. */
  lemma {:induction false} RemoveFirstDollarShape(s: string)
    ensures '$' in s ==> |RemoveFirstDollar(s)| == |s| - 1
    ensures '$' !in s ==> RemoveFirstDollar(s) == s
  {
    if s != "" && s[0] != '$' {
      RemoveFirstDollarShape(s[1..]);
      assert '$' in s <==> '$' in s[1..];
      assert s == [s[0]] + s[1..];
    }
  }

  /** The character that goes is the first `$`: the text before it is kept, and so is the text after it. */
  lemma {:induction false} RemoveFirstDollarAt(s: string, i: nat)
    requires i < |s| && s[i] == '$' && forall j :: 0 <= j < i ==> s[j] != '$'
    ensures RemoveFirstDollar(s) == s[..i] + s[i + 1..]
  {
    if i > 0 {
      var t := s[1..];
      assert forall j :: 0 <= j < i - 1 ==> t[j] == s[j + 1];
      RemoveFirstDollarAt(t, i - 1);
      assert s[..i] == [s[0]] + t[..i - 1];
      assert s[i + 1..] == t[i..];
    }
  }
}
