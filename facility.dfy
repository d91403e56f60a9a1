/**
 * The facility records of the portal and the pure logic around them:
 * the category test used to filter the map (FacilitySelector.isOfCategory),
 * the per-offer category paths, the dialable part of a phone number, and the
 * header and address text of a facility's popup.
 */
module Facility {
  import opened JsText

  /** A category path: root-to-node category ids as the category tree spells them (`kat01_5`, ...). */
  type Path = seq<string>

  /** One classified offer of a facility: a level-1 category and optional level-2/3 categories. */
  datatype FacilityOffer = FacilityOffer(kat1Id: int, kat2Id: OptNum, kat3Id: OptNum)

  /**
   * A facility as delivered by the data endpoint. `facilityOffers` may be absent;
   * `attributes` holds the string-valued fields read by name (`traeger_institution`,
   * `einrichtungsname`, `plz`, `ort`, `strasse`, `hausnummer`, `telefon`, ...).
   */
  datatype Facility = Facility(id: int, facilityOffers: Option<seq<FacilityOffer>>, attributes: map<string, string>)

  /** `facility[name]` for a string attribute: undefined when the record has no such field. */
  function Attr(f: Facility, name: string): (v: Option<string>)
    ensures v.Some? <==> name in f.attributes
  {
    if name in f.attributes then Some(f.attributes[name]) else None
  }

  // ---------------------------------------------------------------------------
  // Category matching
  // ---------------------------------------------------------------------------

  function Kat1Key(o: FacilityOffer): string { "kat01_" + IntToString(o.kat1Id) }
  function Kat2Key(o: FacilityOffer): string { "kat02_" + OptNumToString(o.kat2Id) }
  function Kat3Key(o: FacilityOffer): string { "kat03_" + OptNumToString(o.kat3Id) }

  /**
   * Prefix match of one selected path against one offer: the first element names the
   * level-1 category, a second element must name the level-2 category, a third the
   * level-3 category; elements after the third are not looked at.
   */
  predicate PathMatchesOffer(path: Path, o: FacilityOffer) {
    && |path| >= 1
    && path[0] == Kat1Key(o)
    && (|path| == 1 || (path[1] == Kat2Key(o) && (|path| == 2 || path[2] == Kat3Key(o))))
  }

  /** The selector's verdict: some selected path matches some offer of the facility. */
  predicate MatchesAny(data: Facility, pathes: seq<Path>) {
    && data.facilityOffers.Some?
    && exists p, o :: p in pathes && o in data.facilityOffers.value && PathMatchesOffer(p, o)
  }

  /**
   * FacilitySelector.isOfCategory: for each path, for each offer, test the path
   * level by level and return true on the first match.
   */
  method IsOfCategory(data: Facility, pathes: seq<Path>) returns (b: bool)
    ensures b == MatchesAny(data, pathes)
  {
    if data.facilityOffers.None? {
      return false;
    }
    var offers := data.facilityOffers.value;
    var pathNr := 0;
    while pathNr < |pathes|
      invariant 0 <= pathNr <= |pathes|
      invariant forall p, k :: 0 <= p < pathNr && 0 <= k < |offers| ==> !PathMatchesOffer(pathes[p], offers[k])
    {
      var index := 0;
      while index < |offers|
        invariant 0 <= index <= |offers|
        invariant forall k :: 0 <= k < index ==> !PathMatchesOffer(pathes[pathNr], offers[k])
      {
        var path := pathes[pathNr];
        var element := offers[index];
        assert path in pathes && element in offers;
        if |path| > 0 && path[0] == Kat1Key(element) {
          if |path| == 1 {
            assert PathMatchesOffer(path, element);
            return true;
          } else {
            if path[1] == Kat2Key(element) {
              if |path| == 2 {
                assert PathMatchesOffer(path, element);
                return true;
              } else {
                if path[2] == Kat3Key(element) {
                  assert PathMatchesOffer(path, element);
                  return true;
                }
              }
            }
          }
        }
        index := index + 1;
      }
      pathNr := pathNr + 1;
    }
    return false;
  }

  /** No offers, or no selected paths, means no match. */
  lemma NoOffersOrNoPathsNeverMatch(data: Facility, pathes: seq<Path>)
    requires data.facilityOffers.None? || pathes == [] || data.facilityOffers == Some([])
    ensures !MatchesAny(data, pathes)
  {
  }

  /** An empty path never matches, whatever the facility. */
  lemma EmptyPathNeverMatches(data: Facility)
    ensures !MatchesAny(data, [[]])
  {
  }

  /** Selecting the single level-1 path `kat01_a` matches exactly the facilities with an offer in category a. */
  lemma {:induction false} SingleLevelPath(data: Facility, a: int)
    ensures MatchesAny(data, [["kat01_" + IntToString(a)]])
        <==> data.facilityOffers.Some? && exists o :: o in data.facilityOffers.value && o.kat1Id == a
  {
    if MatchesAny(data, [["kat01_" + IntToString(a)]]) {
      var o :| o in data.facilityOffers.value && PathMatchesOffer(["kat01_" + IntToString(a)], o);
      PrefixCancel("kat01_", IntToString(a), IntToString(o.kat1Id));
      IntToStringInjective(a, o.kat1Id);
    }
    if data.facilityOffers.Some? && exists o :: o in data.facilityOffers.value && o.kat1Id == a {
      var o :| o in data.facilityOffers.value && o.kat1Id == a;
      assert PathMatchesOffer(["kat01_" + IntToString(a)], o);
    }
  }

  /**
   * A two-level path `[kat01_a, kat02_b]` matches exactly the facilities with an offer in
   * level-1 category a AND level-2 category b; an offer without a level-2 id never matches it.
   */
  lemma {:induction false} TwoLevelPath(data: Facility, a: int, b: int)
    ensures MatchesAny(data, [["kat01_" + IntToString(a), "kat02_" + IntToString(b)]])
        <==> data.facilityOffers.Some? && exists o :: o in data.facilityOffers.value && o.kat1Id == a && o.kat2Id == Num(b)
  {
    var path := ["kat01_" + IntToString(a), "kat02_" + IntToString(b)];
    if MatchesAny(data, [path]) {
      var o :| o in data.facilityOffers.value && PathMatchesOffer(path, o);
      PrefixCancel("kat01_", IntToString(a), IntToString(o.kat1Id));
      IntToStringInjective(a, o.kat1Id);
      PrefixCancel("kat02_", IntToString(b), OptNumToString(o.kat2Id));
      assert OptNumToString(Num(b)) == OptNumToString(o.kat2Id);
      OptNumToStringInjective(Num(b), o.kat2Id);
    }
    if data.facilityOffers.Some? && exists o :: o in data.facilityOffers.value && o.kat1Id == a && o.kat2Id == Num(b) {
      var o :| o in data.facilityOffers.value && o.kat1Id == a && o.kat2Id == Num(b);
      assert PathMatchesOffer(path, o);
    }
  }

  /** Path elements after the third one are never compared. */
  lemma ElementsAfterThirdIgnored(p: Path, rest: seq<string>, o: FacilityOffer)
    requires |p| == 3
    ensures PathMatchesOffer(p + rest, o) == PathMatchesOffer(p, o)
  {
    assert (p + rest)[..3] == p;
  }

  /** The verdict depends only on which paths and offers are present, not on their order or repetition. */
  lemma OrderIndependent(d1: Facility, d2: Facility, s1: seq<Path>, s2: seq<Path>)
    requires d1.facilityOffers.Some? <==> d2.facilityOffers.Some?
    requires d1.facilityOffers.Some? ==> forall o :: o in d1.facilityOffers.value <==> o in d2.facilityOffers.value
    requires forall p :: p in s1 <==> p in s2
    ensures MatchesAny(d1, s1) == MatchesAny(d2, s2)
  {
  }

  /** Adding selected paths or offers never turns a match into a non-match. */
  lemma Monotone(data: Facility, more: Facility, s: seq<Path>, t: seq<Path>)
    requires data.facilityOffers.Some? ==> more.facilityOffers.Some? && forall o :: o in data.facilityOffers.value ==> o in more.facilityOffers.value
    requires forall p :: p in s ==> p in t
    requires MatchesAny(data, s)
    ensures MatchesAny(more, t)
  {
  }

  /**
   * The scenario of a two-entity data set: facility 1 offers only category 5, facility 2
   * offers 5/9. Selecting [5, 9] matches facility 2 only; selecting [5] matches both.
   */
  lemma TwoFacilityScenario()
    ensures var f1 := Facility(1, Some([FacilityOffer(5, Undefined, Undefined)]), map[]);
            var f2 := Facility(2, Some([FacilityOffer(5, Num(9), Undefined)]), map[]);
            && !MatchesAny(f1, [["kat01_5", "kat02_9"]]) && MatchesAny(f2, [["kat01_5", "kat02_9"]])
            && MatchesAny(f1, [["kat01_5"]]) && MatchesAny(f2, [["kat01_5"]])
  {
    var o1 := FacilityOffer(5, Undefined, Undefined);
    var o2 := FacilityOffer(5, Num(9), Undefined);
    assert IntToString(5) == "5" && IntToString(9) == "9";
    assert Kat2Key(o1) == "kat02_undefined" != "kat02_9";
    assert PathMatchesOffer(["kat01_5", "kat02_9"], o2);
    assert PathMatchesOffer(["kat01_5"], o1);
    assert PathMatchesOffer(["kat01_5"], o2);
  }

  // ---------------------------------------------------------------------------
  // Category paths of a facility's offers (getKategories)
  // ---------------------------------------------------------------------------

  /**
   * The numeric path of one offer: its level-1 id, then its level-2 id when truthy,
   * then its level-3 id when truthy (independently of the level-2 id).
   */
  function OfferPath(o: FacilityOffer): seq<int> {
    [o.kat1Id]
      + (if TruthyNum(o.kat2Id) then [o.kat2Id.n] else [])
      + (if TruthyNum(o.kat3Id) then [o.kat3Id.n] else [])
  }

  /** An offer's path has one to three ids, starts with the level-1 id, and skips falsy ids. */
  lemma OfferPathShape(o: FacilityOffer)
    ensures 1 <= |OfferPath(o)| <= 3 && OfferPath(o)[0] == o.kat1Id
    ensures |OfferPath(o)| == 1 + (if TruthyNum(o.kat2Id) then 1 else 0) + (if TruthyNum(o.kat3Id) then 1 else 0)
    ensures TruthyNum(o.kat2Id) ==> OfferPath(o)[1] == o.kat2Id.n
    ensures !TruthyNum(o.kat2Id) && TruthyNum(o.kat3Id) ==> OfferPath(o) == [o.kat1Id, o.kat3Id.n]
    ensures TruthyNum(o.kat2Id) && TruthyNum(o.kat3Id) ==> OfferPath(o)[2] == o.kat3Id.n
  {
  }

  /**
   * getKategories: one path per offer, in offer order. The `includes` test compares the
   * freshly built path array by reference, so it never finds it and every path is kept,
   * duplicates included. Reading the offers of a facility without any throws (None).
   */
  method GetKategories(facility: Facility) returns (r: Option<seq<seq<int>>>)
    ensures r.None? <==> facility.facilityOffers.None?
    ensures r.Some? ==> |r.value| == |facility.facilityOffers.value|
    ensures r.Some? ==> forall i :: 0 <= i < |r.value| ==>
              && r.value[i] == OfferPath(facility.facilityOffers.value[i])
              && r.value[i][0] == facility.facilityOffers.value[i].kat1Id
  {
    if facility.facilityOffers.None? {
      return None;
    }
    var offers := facility.facilityOffers.value;
    var kategories: seq<seq<int>> := [];
    var i := 0;
    while i < |offers|
      invariant 0 <= i <= |offers|
      invariant |kategories| == i
      invariant forall k :: 0 <= k < i ==> kategories[k] == OfferPath(offers[k])
    {
      var offer := offers[i];
      var path := [offer.kat1Id];
      if TruthyNum(offer.kat2Id) { path := path + [offer.kat2Id.n]; }
      if TruthyNum(offer.kat3Id) { path := path + [offer.kat3Id.n]; }
      kategories := kategories + [path];
      i := i + 1;
    }
    return Some(kategories);
  }

  // ---------------------------------------------------------------------------
  // Phone numbers (createTelLink)
  // ---------------------------------------------------------------------------

  /** Characters kept in a `tel:` link: the digits, `+` and `^`. */
  predicate Dialable(c: char) {
    IsDigit(c) || c == '+' || c == '^'
  }

  /** `telnr.replace(/[^\d^\+]/g, '')`: delete every character that is not dialable. */
  function TelNumber(s: string): (r: string)
    ensures |r| <= |s|
    ensures forall i :: 0 <= i < |r| ==> Dialable(r[i])
  {
    if s == [] then [] else (if Dialable(s[0]) then [s[0]] else []) + TelNumber(s[1..])
  }

  /** Filtering works piecewise: the number of a concatenation is the concatenation of the numbers. */
  lemma {:induction false} TelNumberAppend(a: string, b: string)
    ensures TelNumber(a + b) == TelNumber(a) + TelNumber(b)
  {
    if a != [] {
      assert (a + b)[0] == a[0];
      assert (a + b)[1..] == a[1..] + b;
      var head := if Dialable(a[0]) then [a[0]] else [];
      assert TelNumber(a + b) == head + TelNumber(a[1..] + b);
      TelNumberAppend(a[1..], b);
      assert TelNumber(a) == head + TelNumber(a[1..]);
    } else {
      assert a + b == b;
    }
  }

  /** A string of dialable characters is its own number. */
  lemma {:induction false} TelNumberKeepsDialable(s: string)
    requires forall i :: 0 <= i < |s| ==> Dialable(s[i])
    ensures TelNumber(s) == s
  {
    if s != [] {
      TelNumberKeepsDialable(s[1..]);
    }
  }

  /** Applying the filter twice is the same as applying it once. */
  lemma TelNumberIdempotent(s: string)
    ensures TelNumber(TelNumber(s)) == TelNumber(s)
  {
    TelNumberKeepsDialable(TelNumber(s));
  }

  /** Every dialable character is kept as often as it occurs, every other one is dropped: order is the input's. */
  lemma {:induction false} TelNumberCounts(s: string, c: char)
    ensures multiset(TelNumber(s))[c] == if Dialable(c) then multiset(s)[c] else 0
  {
    if s != [] {
      TelNumberCounts(s[1..], c);
      assert s == [s[0]] + s[1..];
    }
  }

  /** The link built by createTelLink: the dialable part as `tel:` target, the original text as label. */
  datatype Anchor = Anchor(href: string, text: string)

  function CreateTelLink(telnr: string): (a: Anchor)
    ensures a.text == telnr
    ensures |a.href| >= 4 && a.href[..4] == "tel:"
    ensures forall i :: 4 <= i < |a.href| ==> Dialable(a.href[i])
    ensures a.href[4..] == TelNumber(telnr)
  {
    Anchor("tel:" + TelNumber(telnr), telnr)
  }

  // ---------------------------------------------------------------------------
  // Header and address text of the popup
  // ---------------------------------------------------------------------------

  /**
   * getHeader: the carrier institution, followed by `<br>` and the facility name when both
   * are truthy; the institution alone when the name is falsy; otherwise the name as it is
   * (an undefined name prints as "undefined").
   */
  function GetHeader(f: Facility): (s: string)
    ensures var t, n := Attr(f, "traeger_institution"), Attr(f, "einrichtungsname");
            && (Truthy(t) && Truthy(n) ==> s == t.value + "<br>" + n.value)
            && (Truthy(t) && !Truthy(n) ==> s == t.value)
            && (!Truthy(t) ==> s == Str(n))
  {
    var t, n := Attr(f, "traeger_institution"), Attr(f, "einrichtungsname");
    if Truthy(t) then t.value + (if Truthy(n) then "<br>" + n.value else "") else Str(n)
  }

  /** The `plz ort` part of the address; undefined when neither is truthy. */
  function PlzOrt(plz: Option<string>, ort: Option<string>): (v: Option<string>)
    ensures Truthy(plz) && Truthy(ort) ==> v == Some(plz.value + " " + ort.value)
    ensures Truthy(plz) && !Truthy(ort) ==> v == plz
    ensures !Truthy(plz) && Truthy(ort) ==> v == ort
    ensures !Truthy(plz) && !Truthy(ort) ==> v.None?
  {
    if Truthy(plz) then
      if Truthy(ort) then Some(plz.value + " " + ort.value) else plz
    else if Truthy(ort) then ort
    else None
  }

  /** The `strasse hausnummer` part of the address; undefined when the street is not truthy. */
  function StreetLine(strasse: Option<string>, hausnummer: Option<string>): (v: Option<string>)
    ensures Truthy(strasse) && Truthy(hausnummer) ==> v == Some(strasse.value + " " + hausnummer.value)
    ensures Truthy(strasse) && !Truthy(hausnummer) ==> v == strasse
    ensures !Truthy(strasse) ==> v.None?
  {
    if Truthy(strasse) then
      if Truthy(hausnummer) then Some(strasse.value + " " + hausnummer.value) else strasse
    else None
  }

  /**
   * getAdress as written: the two parts joined by `<br>`, where a missing part is the
   * undefined value and prints as "undefined".
   */
  function GetAdress(f: Facility): (s: string)
    ensures var po := PlzOrt(Attr(f, "plz"), Attr(f, "ort"));
            var st := StreetLine(Attr(f, "strasse"), Attr(f, "hausnummer"));
            && |s| >= 4
            && s == Str(po) + "<br>" + Str(st)
            && (po.None? ==> s[..9] == "undefined")
            && (st.None? ==> s[|s| - 9..] == "undefined")
  {
    Str(PlzOrt(Attr(f, "plz"), Attr(f, "ort"))) + "<br>" + Str(StreetLine(Attr(f, "strasse"), Attr(f, "hausnummer")))
  }

  /** The characters of a possibly undefined field. */
  function Chars(v: Option<string>): set<char> {
    if v.Some? then set c | c in v.value else {}
  }

  /** All characters of the facility's address fields, plus the separators the address text adds. */
  function AddressAlphabet(f: Facility): set<char> {
    Chars(Attr(f, "plz")) + Chars(Attr(f, "ort")) + Chars(Attr(f, "strasse")) + Chars(Attr(f, "hausnummer"))
      + {' ', '<', 'b', 'r', '>'}
  }

  /** A possibly undefined field, with a missing field read as empty text. */
  function Str0(v: Option<string>): (s: string)
    ensures v.Some? ==> s == v.value
    ensures v.None? ==> s == ""
  {
    if v.Some? then v.value else ""
  }

  /**
   * A facility without address fields gets the text "undefined<br>undefined", although no
   * address field holds a single character of it.
   */
  lemma AdressOfFacilityWithoutAddress(id: int)
    ensures GetAdress(Facility(id, None, map[])) == "undefined<br>undefined"
    ensures 'u' !in AddressAlphabet(Facility(id, None, map[]))
  {
  }

  /** Joining two fields with a blank uses only their characters and the blank. */
  lemma JoinedChars(a: Option<string>, b: Option<string>, v: Option<string>)
    requires v == a || v == b || (a.Some? && b.Some? && v == Some(a.value + " " + b.value)) || v.None?
    ensures forall i :: 0 <= i < |Str0(v)| ==> Str0(v)[i] in Chars(a) + Chars(b) + {' '}
  {
    if a.Some? && b.Some? && v == Some(a.value + " " + b.value) {
      var x, y := a.value, b.value;
      forall i | 0 <= i < |x + " " + y| ensures (x + " " + y)[i] in Chars(a) + Chars(b) + {' '} {
        if i < |x| {
          assert (x + " " + y)[i] == x[i];
        } else if i > |x| {
          assert (x + " " + y)[i] == y[i - |x| - 1];
        }
      }
    }
  }

  /** The address text with a missing part written as empty text instead of "undefined". */
  function GetAddressText(f: Facility): (s: string)
    ensures forall i :: 0 <= i < |s| ==> s[i] in AddressAlphabet(f)
    ensures var po := PlzOrt(Attr(f, "plz"), Attr(f, "ort"));
            var st := StreetLine(Attr(f, "strasse"), Attr(f, "hausnummer"));
            s == Str0(po) + "<br>" + Str0(st)
  {
    var plz, ort := Attr(f, "plz"), Attr(f, "ort");
    var strasse, nr := Attr(f, "strasse"), Attr(f, "hausnummer");
    var po := PlzOrt(plz, ort);
    var st := StreetLine(strasse, nr);
    JoinedChars(plz, ort, po);
    JoinedChars(strasse, nr, st);
    var s := Str0(po) + "<br>" + Str0(st);
    assert forall i :: 0 <= i < |s| ==> s[i] in AddressAlphabet(f) by {
      forall i | 0 <= i < |s| ensures s[i] in AddressAlphabet(f) {
        if i < |Str0(po)| {
          assert s[i] == Str0(po)[i];
        } else if i >= |Str0(po)| + 4 {
          assert s[i] == Str0(st)[i - |Str0(po)| - 4];
        }
      }
    }
    s
  }
}
