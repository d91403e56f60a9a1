/**
 * The query-string builder of the portal's HTTP helper: turn the entries of a parameter
 * object into `key=value` pairs, joined by `&`, after a `?` or `&` separator that depends
 * on the URL the string is appended to. `encodeURIComponent` is a parameter.
 */
module HtmlUtil {
  import opened JsText

  /** A parameter value: a single value or an array of values. */
  datatype ParamValue = Scalar(s: string) | List(items: seq<string>)

  /** One property of the parameter object, in the object's key-iteration order. */
  datatype Entry = Entry(key: string, value: ParamValue)

  /** The key as written into the query string, before encoding. */
  function KeyText(k: string, uppercase: bool): string {
    if uppercase then ToUpper(k) else k
  }

  /** `key=v` for each array element `v`, with the value encoded, in element order. */
  function ValuePairs(key: string, items: seq<string>, enc: string -> string): (r: seq<string>)
    ensures |r| == |items|
    decreases |items|
  {
    if items == [] then []
    else ValuePairs(key, items[..|items| - 1], enc) + [key + "=" + enc(items[|items| - 1])]
  }

  /** The j-th pair of an array is its key, `=`, and the j-th element encoded. */
  lemma {:induction false} ValuePairsElements(key: string, items: seq<string>, enc: string -> string)
    ensures forall j :: 0 <= j < |items| ==> ValuePairs(key, items, enc)[j] == key + "=" + enc(items[j])
    decreases |items|
  {
    if items != [] {
      var init := items[..|items| - 1];
      ValuePairsElements(key, init, enc);
      assert forall j :: 0 <= j < |init| ==> init[j] == items[j];
    }
  }

  /** The pairs one property yields: one for a single value, one per element of an array. */
  function EntryPairs(enc: string -> string, e: Entry, uppercase: bool): (r: seq<string>)
    ensures |r| == PairCount(e.value)
  {
    var key := enc(KeyText(e.key, uppercase));
    match e.value
    case Scalar(s) => [key + "=" + enc(s)]
    case List(items) => ValuePairs(key, items, enc)
  }

  /** Each pair of a property is its encoded key, `=`, and one encoded value, in order. */
  lemma EntryPairsElements(enc: string -> string, e: Entry, uppercase: bool)
    ensures e.value.Scalar? ==> EntryPairs(enc, e, uppercase) == [enc(KeyText(e.key, uppercase)) + "=" + enc(e.value.s)]
    ensures e.value.List? ==>
              forall j :: 0 <= j < |e.value.items| ==>
                EntryPairs(enc, e, uppercase)[j] == enc(KeyText(e.key, uppercase)) + "=" + enc(e.value.items[j])
  {
    if e.value.List? {
      ValuePairsElements(enc(KeyText(e.key, uppercase)), e.value.items, enc);
    }
  }

  /** The pairs of all properties, property by property. */
  function Pairs(enc: string -> string, entries: seq<Entry>, uppercase: bool): seq<string>
    decreases |entries|
  {
    if entries == [] then []
    else Pairs(enc, entries[..|entries| - 1], uppercase) + EntryPairs(enc, entries[|entries| - 1], uppercase)
  }

  /** `Array.prototype.join('&')`. */
  function Join(ps: seq<string>): string
    decreases |ps|
  {
    if ps == [] then ""
    else if |ps| == 1 then ps[0]
    else Join(ps[..|ps| - 1]) + "&" + ps[|ps| - 1]
  }

  /** `?` when there is no URL, an empty one, or one without a query; `&` otherwise. */
  function Separator(existingUrl: Option<string>): (c: char)
    ensures c == '?' <==> !Truthy(existingUrl) || '?' !in existingUrl.value
    ensures c == '?' || c == '&'
  {
    if !Truthy(existingUrl) || '?' !in existingUrl.value then '?' else '&'
  }

  /** getParamString; `obj` is None when the parameter object is falsy. */
  function ParamString(obj: Option<seq<Entry>>, existingUrl: Option<string>, uppercase: bool, enc: string -> string): string {
    if obj.None? then "" else [Separator(existingUrl)] + Join(Pairs(enc, obj.value, uppercase))
  }

  /** The inner loop of getParamString: one pair per array element, same key, in element order. */
  method PushArrayPairs(params: seq<string>, key: string, items: seq<string>, enc: string -> string)
    returns (r: seq<string>)
    ensures r == params + ValuePairs(key, items, enc)
  {
    r := params;
    var j := 0;
    while j < |items|
      invariant 0 <= j <= |items|
      invariant r == params + ValuePairs(key, items[..j], enc)
    {
      assert items[..j + 1][..j] == items[..j];
      r := r + [key + "=" + enc(items[j])];
      j := j + 1;
    }
    assert items[..j] == items;
  }

  /** The body of the outer loop of getParamString: push the pairs of one property. */
  method PushEntryPairs(params: seq<string>, e: Entry, uppercase: bool, enc: string -> string)
    returns (r: seq<string>)
    ensures r == params + EntryPairs(enc, e, uppercase)
  {
    var key := enc(if uppercase then ToUpper(e.key) else e.key);
    var value := e.value;
    if !value.List? {
      r := params + [key + "=" + enc(value.s)];
    } else {
      r := PushArrayPairs(params, key, value.items, enc);
    }
  }

  /** The outer loop of getParamString: the pairs of every property, property by property. */
  method CollectPairs(entries: seq<Entry>, uppercase: bool, enc: string -> string) returns (params: seq<string>)
    ensures params == Pairs(enc, entries, uppercase)
  {
    params := [];
    var i := 0;
    while i < |entries|
      invariant 0 <= i <= |entries|
      invariant params == Pairs(enc, entries[..i], uppercase)
    {
      assert entries[..i + 1][..i] == entries[..i];
      params := PushEntryPairs(params, entries[i], uppercase, enc);
      i := i + 1;
    }
    assert entries[..i] == entries;
  }

  /** getParamString: collect the pairs, then prepend the separator to their join. */
  method GetParamString(obj: Option<seq<Entry>>, existingUrl: Option<string>, uppercase: bool, enc: string -> string)
    returns (r: string)
    ensures r == ParamString(obj, existingUrl, uppercase, enc)
  {
    if obj.None? {
      return "";
    }
    var params := CollectPairs(obj.value, uppercase, enc);
    var sep := if !Truthy(existingUrl) || '?' !in existingUrl.value then "?" else "&";
    r := sep + Join(params);
  }

  // ---------------------------------------------------------------------------
  // Properties
  // ---------------------------------------------------------------------------

  /** The number of pairs a property yields. */
  function PairCount(v: ParamValue): nat {
    match v
    case Scalar(_) => 1
    case List(items) => |items|
  }

  /** The number of pairs is the number of single values plus the lengths of the arrays. */
  function TotalPairCount(entries: seq<Entry>): nat
    decreases |entries|
  {
    if entries == [] then 0
    else TotalPairCount(entries[..|entries| - 1]) + PairCount(entries[|entries| - 1].value)
  }

  lemma {:induction false} PairsCount(enc: string -> string, entries: seq<Entry>, uppercase: bool)
    ensures |Pairs(enc, entries, uppercase)| == TotalPairCount(entries)
    decreases |entries|
  {
    if entries != [] {
      PairsCount(enc, entries[..|entries| - 1], uppercase);
    }
  }

  /** Appending a property appends its pairs. */
  lemma PairsSnoc(enc: string -> string, init: seq<Entry>, last: Entry, uppercase: bool)
    ensures Pairs(enc, init + [last], uppercase) == Pairs(enc, init, uppercase) + EntryPairs(enc, last, uppercase)
  {
    var s := init + [last];
    assert s[..|s| - 1] == init;
  }

  /** Pairs come out property by property, in the order of the properties. */
  lemma {:induction false} PairsConcat(enc: string -> string, a: seq<Entry>, b: seq<Entry>, uppercase: bool)
    ensures Pairs(enc, a + b, uppercase) == Pairs(enc, a, uppercase) + Pairs(enc, b, uppercase)
    decreases |b|
  {
    if b == [] {
      assert a + b == a;
    } else {
      var b', last := b[..|b| - 1], b[|b| - 1];
      assert b == b' + [last];
      assert a + b == (a + b') + [last];
      PairsSnoc(enc, a + b', last, uppercase);
      PairsSnoc(enc, b', last, uppercase);
      PairsConcat(enc, a, b', uppercase);
      AppendAssoc(Pairs(enc, a, uppercase), Pairs(enc, b', uppercase), EntryPairs(enc, last, uppercase));
    }
  }

  /** The keys with upper-casing applied, the values as they were. */
  function UpperKeys(entries: seq<Entry>): (r: seq<Entry>)
    ensures |r| == |entries|
    ensures forall i :: 0 <= i < |r| ==> r[i] == Entry(ToUpper(entries[i].key), entries[i].value)
  {
    seq(|entries|, i requires 0 <= i < |entries| => Entry(ToUpper(entries[i].key), entries[i].value))
  }

  /** The uppercase flag upper-cases the keys and nothing else: the values stay as they are. */
  lemma {:induction false} UppercaseOnlyKeys(enc: string -> string, entries: seq<Entry>)
    ensures Pairs(enc, entries, true) == Pairs(enc, UpperKeys(entries), false)
    decreases |entries|
  {
    if entries != [] {
      var init := entries[..|entries| - 1];
      assert UpperKeys(entries)[..|entries| - 1] == UpperKeys(init);
      UppercaseOnlyKeys(enc, init);
    }
  }

  /** A falsy object yields the empty string; any other starts with the separator. */
  lemma ParamStringShape(obj: Option<seq<Entry>>, existingUrl: Option<string>, uppercase: bool, enc: string -> string)
    ensures obj.None? ==> ParamString(obj, existingUrl, uppercase, enc) == ""
    ensures obj.Some? ==>
              && |ParamString(obj, existingUrl, uppercase, enc)| >= 1
              && (ParamString(obj, existingUrl, uppercase, enc)[0] == '?' <==> !Truthy(existingUrl) || '?' !in existingUrl.value)
              && (ParamString(obj, existingUrl, uppercase, enc)[0] == '&' <==> Truthy(existingUrl) && '?' in existingUrl.value)
    ensures obj == Some([]) ==> ParamString(obj, existingUrl, uppercase, enc) == [Separator(existingUrl)]
  {
  }

  /** Joining two pairs puts one `&` between them. */
  lemma JoinTwo(x: string, y: string)
    ensures Join([x, y]) == x + "&" + y
  {
    assert [x, y][..1] == [x];
  }

  /** The pairs of a single property are that property's pairs. */
  lemma PairsSingle(enc: string -> string, e: Entry, uppercase: bool)
    ensures Pairs(enc, [e], uppercase) == EntryPairs(enc, e, uppercase)
  {
    assert [e][..0] == [];
  }

  /** A single array property yields its elements as pairs with the same key, joined in order. */
  lemma ArrayProperty(enc: string -> string, key: string, a: string, b: string)
    ensures ParamString(Some([Entry(key, List([a, b]))]), None, false, enc) ==
              "?" + ((enc(key) + "=" + enc(a)) + "&" + (enc(key) + "=" + enc(b)))
  {
    var e := Entry(key, List([a, b]));
    var x, y := enc(key) + "=" + enc(a), enc(key) + "=" + enc(b);
    PairsSingle(enc, e, false);
    EntryPairsElements(enc, e, false);
    var ps := EntryPairs(enc, e, false);
    assert |ps| == 2 && ps[0] == x && ps[1] == y;
    assert ps == [x, y];
    JoinTwo(x, y);
  }
}
