/**
 * The banner lookup of `GET /api/banners`: the country code is upper-cased and
 * checked against the supported countries, then the fetched banner documents are
 * sorted in place by their `position` (a missing one counts as 0) and each one's
 * `_id` is moved to an `id` field holding its string form.
 */
module Banners {
  import opened Wrappers
  import opened Text

  /** The codes of the `COUNTRIES` table. */
  const COUNTRIES: set<string> := {"NL", "AE", "BH"}

  /** The status with which an unsupported country is refused. */
  const BAD_REQUEST: int := 400

  // ---------------------------------------------------------------------------
  // The country check

  /** ASCII upper-casing of one character. */
  function UpperChar(c: char): char {
    if 'a' <= c <= 'z' then (c as int - 32) as char else c
  }

  function Upper(s: string): (u: string)
    ensures |u| == |s|
  {
    seq(|s|, i requires 0 <= i < |s| => UpperChar(s[i]))
  }

  /** The code a request's `country` stands for, or 400 when it is not supported. */
  function ValidateCountry(country: string): Result<string, int> {
    var code := Upper(country);
    if code in COUNTRIES then Ok(code) else Err(BAD_REQUEST)
  }

  lemma UpperCharInverse(c: char, d: char)
    requires 'A' <= d <= 'Z'
    ensures UpperChar(c) == d <==> c == d || c as int == d as int + 32
  {
  }

  /** Upper-casing twice is upper-casing once. */
  lemma UpperIdempotent(s: string)
    ensures Upper(Upper(s)) == Upper(s)
  {
  }

  /** Exactly the twelve spellings of NL, AE and BH in any mix of cases are accepted, each as its upper-case code. */
  lemma AcceptedSpellings(country: string)
    ensures ValidateCountry(country).Ok? <==>
            country in {"NL", "Nl", "nL", "nl", "AE", "Ae", "aE", "ae", "BH", "Bh", "bH", "bh"}
    ensures ValidateCountry(country).Ok? ==> ValidateCountry(country).value == Upper(country) && Upper(country) in COUNTRIES
    ensures ValidateCountry(country).Err? ==> ValidateCountry(country).error == BAD_REQUEST
  {
    if |country| == 2 {
      var c0, c1 := country[0], country[1];
      assert country == [c0, c1];
      assert Upper(country) == [UpperChar(c0), UpperChar(c1)];
      UpperCharInverse(c0, 'N');
      UpperCharInverse(c0, 'A');
      UpperCharInverse(c0, 'B');
      UpperCharInverse(c1, 'L');
      UpperCharInverse(c1, 'E');
      UpperCharInverse(c1, 'H');
    }
  }

  // ---------------------------------------------------------------------------
  // Documents

  /** The values a document field can hold: an `ObjectId` is kept as its hex string. */
  datatype Value = Int(i: int) | String(s: string) | ObjectId(hex: string) | Bool(b: bool) | Null

  datatype Doc = Doc(fields: map<string, Value>)

  /** The field names the handler reads and writes. */
  const POSITION: string := "position"
  const MONGO_ID: string := "_id"
  const ID: string := "id"

  /** Python's `str` of a field value. */
  function Str(v: Value): string {
    match v
    case Int(i) => if i < 0 then "-" + NatText(-i) else NatText(i)
    case String(s) => s
    case ObjectId(hex) => hex
    case Bool(b) => if b then "True" else "False"
    case Null => "None"
  }

  /**
   * `position` is absent or an integer.  Other values (a float, a bool, `None`, a
   * string) are outside the model, even where Python would sort them.
   */
  predicate IntegerPosition(d: Doc) {
    POSITION in d.fields ==> d.fields[POSITION].Int?
  }

  predicate IntegerPositions(docs: seq<Doc>) {
    forall i :: 0 <= i < |docs| ==> IntegerPosition(docs[i])
  }

  /**
   * The sort key `x.get("position", 0)` on documents that satisfy `IntegerPosition`;
   * for any other `position` value it is 0, which is not what Python would compare.
   */
  function Position(d: Doc): int {
    if POSITION in d.fields && d.fields[POSITION].Int? then d.fields[POSITION].i else 0
  }

  // ---------------------------------------------------------------------------
  // Stable sorting by a key, as `list.sort(key=...)` does

  predicate SortedBy<T>(s: seq<T>, key: T -> int) {
    forall i, j :: 0 <= i < j < |s| ==> key(s[i]) <= key(s[j])
  }

  /** The elements of `s` whose key is `p`, in their order in `s`. */
  function WithKey<T>(s: seq<T>, key: T -> int, p: int): (r: seq<T>)
    ensures forall i :: 0 <= i < |r| ==> key(r[i]) == p
  {
    if s == [] then []
    else WithKey(s[..|s| - 1], key, p) + (if key(s[|s| - 1]) == p then [s[|s| - 1]] else [])
  }

  /** `x` placed after every element of the sorted `s` whose key is not above its own. */
  function Insert<T>(s: seq<T>, x: T, key: T -> int): (r: seq<T>)
    ensures |r| == |s| + 1
  {
    if s == [] then [x]
    else if key(s[|s| - 1]) > key(x) then Insert(s[..|s| - 1], x, key) + [s[|s| - 1]]
    else s + [x]
  }

  /** The order a stable sort leaves: insertion of each element in turn. */
  function SortSpec<T>(s: seq<T>, key: T -> int): (r: seq<T>)
    ensures |r| == |s|
  {
    if s == [] then [] else Insert(SortSpec(s[..|s| - 1], key), s[|s| - 1], key)
  }

  lemma {:induction false} InsertPermutes<T>(s: seq<T>, x: T, key: T -> int)
    ensures multiset(Insert(s, x, key)) == multiset(s) + multiset{x}
    decreases |s|
  {
    if s != [] && key(s[|s| - 1]) > key(x) {
      var init := s[..|s| - 1];
      InsertPermutes(init, x, key);
      assert init + [s[|s| - 1]] == s;
    }
  }

  lemma {:induction false} InsertSorted<T>(s: seq<T>, x: T, key: T -> int)
    requires SortedBy(s, key)
    ensures SortedBy(Insert(s, x, key), key)
    decreases |s|
  {
    if s != [] && key(s[|s| - 1]) > key(x) {
      var last := s[|s| - 1];
      var init := s[..|s| - 1];
      InsertSorted(init, x, key);
      InsertPermutes(init, x, key);
      var t := Insert(init, x, key);
      var r := t + [last];
      forall i, j | 0 <= i < j < |r|
        ensures key(r[i]) <= key(r[j])
      {
        if j == |r| - 1 {
          assert r[i] == t[i] && t[i] in multiset(t);
          if r[i] != x {
            assert r[i] in multiset(init);
            var k :| 0 <= k < |init| && init[k] == r[i];
            assert s[k] == r[i];
          }
        }
      }
    }
  }

  lemma {:induction false} InsertStable<T>(s: seq<T>, x: T, key: T -> int, p: int)
    ensures WithKey(Insert(s, x, key), key, p) == WithKey(s, key, p) + (if key(x) == p then [x] else [])
    decreases |s|
  {
    if s == [] {
      assert [x][..0] == [];
    } else {
      var last := s[|s| - 1];
      var init := s[..|s| - 1];
      if key(last) > key(x) {
        InsertStable(init, x, key, p);
        var r := Insert(init, x, key) + [last];
        assert r[..|r| - 1] == Insert(init, x, key);
      } else {
        var r := s + [x];
        assert r[..|r| - 1] == s;
      }
    }
  }

  /**
   * The sort is stable: its result is ordered by the key, is a permutation of its
   * input, and keeps the elements of each key in their input order.
   */
  lemma {:induction false} SortSpecIsStableSort<T>(s: seq<T>, key: T -> int)
    ensures SortedBy(SortSpec(s, key), key)
    ensures multiset(SortSpec(s, key)) == multiset(s)
    ensures forall p :: WithKey(SortSpec(s, key), key, p) == WithKey(s, key, p)
  {
    if s != [] {
      var init := s[..|s| - 1];
      var x := s[|s| - 1];
      SortSpecIsStableSort(init, key);
      InsertSorted(SortSpec(init, key), x, key);
      InsertPermutes(SortSpec(init, key), x, key);
      assert init + [x] == s;
      forall p ensures WithKey(SortSpec(s, key), key, p) == WithKey(s, key, p) {
        InsertStable(SortSpec(init, key), x, key, p);
      }
    }
  }

  /**
   * In a list whose elements from `j` on all lie above `x` and whose element
   * before `j` does not, `x` is inserted exactly at `j`.
   */
  lemma {:induction false} InsertAtGap<T>(s: seq<T>, j: nat, x: T, key: T -> int)
    requires j <= |s|
    requires j > 0 ==> key(s[j - 1]) <= key(x)
    requires forall k :: j <= k < |s| ==> key(s[k]) > key(x)
    ensures Insert(s, x, key) == s[..j] + [x] + s[j..]
    decreases |s|
  {
    if j < |s| {
      var last := s[|s| - 1];
      var init := s[..|s| - 1];
      assert key(last) > key(x);
      InsertAtGap(init, j, x, key);
      assert init[..j] == s[..j];
      assert init[j..] + [last] == s[j..];
    }
  }

  /** The array after the shifting loop, read as a sequence: `before[i]` sits at the gap `j`. */
  lemma ShiftedIsInsert<T>(before: seq<T>, after: seq<T>, i: nat, j: nat, key: T -> int)
    requires j <= i < |before| == |after|
    requires forall k :: 0 <= k < j ==> after[k] == before[k]
    requires after[j] == before[i]
    requires forall k :: j < k <= i ==> after[k] == before[k - 1]
    requires j > 0 ==> key(before[j - 1]) <= key(before[i])
    requires forall k :: j <= k < i ==> key(before[k]) > key(before[i])
    ensures after[..i + 1] == Insert(before[..i], before[i], key)
  {
    var s := before[..i];
    InsertAtGap(s, j, before[i], key);
    var r := s[..j] + [before[i]] + s[j..];
    forall k | 0 <= k <= i
      ensures after[k] == r[k]
    {
    }
  }

  /** Moves `a[i]` left past every document of `a[..i]` with a larger position. */
  method InsertAt(a: array<Doc>, i: nat)
    requires i < a.Length
    modifies a
    ensures a[..i + 1] == Insert(old(a[..i]), old(a[i]), Position)
    ensures forall k :: i < k < a.Length ==> a[k] == old(a[k])
  {
    var x := a[i];
    var j := i;
    while j > 0 && Position(a[j - 1]) > Position(x)
      invariant 0 <= j <= i
      invariant forall k :: 0 <= k < j ==> a[k] == old(a[k])
      invariant forall k :: j < k <= i ==> a[k] == old(a[k - 1])
      invariant forall k :: i < k < a.Length ==> a[k] == old(a[k])
      invariant forall k :: j <= k < i ==> Position(old(a[k])) > Position(x)
    {
      a[j] := a[j - 1];
      j := j - 1;
    }
    a[j] := x;
    ShiftedIsInsert(old(a[..]), a[..], i, j, Position);
  }

  /** `docs.sort(key=lambda x: x.get("position", 0))`: an in-place insertion sort. */
  method SortByPosition(a: array<Doc>)
    modifies a
    ensures a[..] == SortSpec(old(a[..]), Position)
  {
    ghost var orig := a[..];
    var i := 0;
    while i < a.Length
      invariant 0 <= i <= a.Length
      invariant a[..i] == SortSpec(orig[..i], Position)
      invariant forall k :: i <= k < a.Length ==> a[k] == orig[k]
    {
      InsertAt(a, i);
      assert orig[..i + 1][..i] == orig[..i];
      i := i + 1;
    }
    assert orig[..a.Length] == orig;
  }

  // ---------------------------------------------------------------------------
  // Renaming `_id` to `id`

  /** `d["id"] = str(d.pop("_id"))` when the document has an `_id`; otherwise nothing. */
  function Rename(d: Doc): Doc {
    if MONGO_ID in d.fields then Doc((d.fields - {MONGO_ID})[ID := String(Str(d.fields[MONGO_ID]))]) else d
  }

  function RenameAll(s: seq<Doc>): (r: seq<Doc>)
    ensures |r| == |s|
  {
    seq(|s|, i requires 0 <= i < |s| => Rename(s[i]))
  }

  /**
   * A document with `_id` loses it and gains `id` holding its string form, every
   * other field unchanged; one without `_id` is left as it is.
   */
  lemma RenameMovesId(d: Doc)
    ensures MONGO_ID in d.fields ==>
              MONGO_ID !in Rename(d).fields &&
              Rename(d).fields.Keys == d.fields.Keys - {MONGO_ID} + {ID} &&
              Rename(d).fields[ID] == String(Str(d.fields[MONGO_ID])) &&
              forall f :: f in d.fields && f != MONGO_ID && f != ID ==> Rename(d).fields[f] == d.fields[f]
    ensures MONGO_ID !in d.fields ==> Rename(d) == d
  {
  }

  /** Renaming leaves the sort key alone, so a sorted list stays sorted. */
  lemma RenameKeepsOrder(s: seq<Doc>)
    requires SortedBy(s, Position)
    ensures SortedBy(RenameAll(s), Position)
    ensures forall i :: 0 <= i < |s| ==> Position(RenameAll(s)[i]) == Position(s[i])
  {
  }

  /** The loop `for d in docs: if "_id" in d: ...`, rewriting each document in place. */
  method RenameIds(a: array<Doc>)
    modifies a
    ensures a[..] == RenameAll(old(a[..]))
  {
    var i := 0;
    while i < a.Length
      invariant 0 <= i <= a.Length
      invariant forall k :: 0 <= k < i ==> a[k] == Rename(old(a[k]))
      invariant forall k :: i <= k < a.Length ==> a[k] == old(a[k])
    {
      if MONGO_ID in a[i].fields {
        var id := a[i].fields[MONGO_ID];
        a[i] := Doc((a[i].fields - {MONGO_ID})[ID := String(Str(id))]);
      }
      i := i + 1;
    }
  }

  /**
   * Lines 81-89 of the handler, with the database read taken as `fetched`: an
   * unsupported country is refused with 400; otherwise the result is the fetched
   * documents stably sorted by position, with `_id` renamed.
   */
  method GetBanners(country: string, fetched: seq<Doc>) returns (r: Result<seq<Doc>, int>)
    requires IntegerPositions(fetched)
    ensures r.Err? <==> Upper(country) !in COUNTRIES
    ensures r.Err? ==> r.error == BAD_REQUEST
    ensures r.Ok? ==> r.value == RenameAll(SortSpec(fetched, Position))
  {
    var code := ValidateCountry(country);
    if code.Err? {
      return Err(code.error);
    }
    var docs := new Doc[|fetched|](i requires 0 <= i < |fetched| => fetched[i]);
    assert docs[..] == fetched;
    SortByPosition(docs);
    RenameIds(docs);
    r := Ok(docs[..]);
  }

  /** What a successful lookup returns: a stable sort of the fetched documents with every `_id` renamed. */
  lemma BannersResult(fetched: seq<Doc>)
    ensures var out := RenameAll(SortSpec(fetched, Position));
            SortedBy(out, Position) &&
            |out| == |fetched| &&
            (forall i :: 0 <= i < |out| ==> MONGO_ID !in out[i].fields) &&
            multiset(SortSpec(fetched, Position)) == multiset(fetched) &&
            forall p :: WithKey(SortSpec(fetched, Position), Position, p) == WithKey(fetched, Position, p)
  {
    SortSpecIsStableSort(fetched, Position);
    RenameKeepsOrder(SortSpec(fetched, Position));
  }
}
