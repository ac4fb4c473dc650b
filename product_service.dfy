/**
 * Product creation (src/services/productService.js): the comma-separated `features` and
 * `tags` inputs become lists of trimmed, non-empty entries, and the other fields are
 * copied as given.
 */
module ProductService {
  import opened Wrappers
  import opened Text

  /** `s.trim()` keeps only characters of s. */
  lemma TrimWithin(s: string, c: char)
    requires c !in s
    ensures c !in Trim(s)
  {
    var a := TrimStart(s);
    assert c !in a by {
      forall i | 0 <= i < |a| ensures a[i] != c {
        assert a[i] == s[|s| - |a| + i];
      }
    }
    var t := TrimEnd(a);
    forall i | 0 <= i < |t| ensures t[i] != c {
      assert t[i] == a[i];
    }
  }

  /** `.map(f => f.trim()).filter(f => f)` */
  function Clean(parts: seq<string>): (r: seq<string>)
    ensures |r| <= |parts|
  {
    if parts == [] then []
    else (if Trim(parts[0]) != "" then [Trim(parts[0])] else []) + Clean(parts[1..])
  }

  /**
   * `input.split(',').map(f => f.trim()).filter(f => f)`: no entry of the list is empty
   * or padded, and no entry holds a comma.
   */
  function NormalizeList(input: string): (entries: seq<string>)
    ensures forall e :: e in entries ==> Tidy(e) && ',' !in e
  {
    var parts := Split(input, ',');
    CleanEntries(parts);
    SplitPartsLackSeparator(input, ',');
    CleanLacks(parts, ',');
    Clean(parts)
  }

  /** An entry that survives: non-empty and without surrounding white space. */
  predicate Tidy(e: string) {
    e != "" && Trim(e) == e
  }

  /** Every entry is tidy. */
  lemma {:induction false} CleanEntries(parts: seq<string>)
    ensures forall e :: e in Clean(parts) ==> Tidy(e)
  {
    if parts != [] {
      CleanEntries(parts[1..]);
      TrimmedIsTrimmed(parts[0]);
    }
  }

  /** A character absent from every piece is absent from every entry. */
  lemma {:induction false} CleanLacks(parts: seq<string>, c: char)
    requires forall k :: 0 <= k < |parts| ==> c !in parts[k]
    ensures forall e :: e in Clean(parts) ==> c !in e
  {
    if parts != [] {
      CleanLacks(parts[1..], c);
      TrimWithin(parts[0], c);
    }
  }

  /** Cleaning works piece by piece, so the surviving entries keep their input order. */
  lemma {:induction false} CleanAppend(a: seq<string>, b: seq<string>)
    ensures Clean(a + b) == Clean(a) + Clean(b)
  {
    if a != [] {
      assert (a + b)[1..] == a[1..] + b;
      CleanAppend(a[1..], b);
    } else {
      assert a + b == b;
    }
  }

  /** A non-blank input without a comma gives the one trimmed entry. */
  lemma SingleEntry(input: string)
    requires ',' !in input && Trim(input) != ""
    ensures NormalizeList(input) == [Trim(input)]
  {
    assert Split(input, ',') == [input];
  }

  /** Entries that are already clean stay as they are. */
  lemma {:induction false} CleanFixed(xs: seq<string>)
    requires forall e :: e in xs ==> Tidy(e)
    ensures Clean(xs) == xs
  {
    if xs != [] {
      assert Tidy(xs[0]);
      CleanFixed(xs[1..]);
    }
  }

  /** Splitting the join of comma-free pieces gives the pieces back. */
  lemma {:induction false} SplitJoin(parts: seq<string>, sep: char)
    requires |parts| >= 1 && forall k :: 0 <= k < |parts| ==> sep !in parts[k]
    ensures Split(Join(parts, [sep]), sep) == parts
  {
    if |parts| > 1 {
      var rest := parts[1..];
      assert Join(parts, [sep]) == parts[0] + [sep] + Join(rest, [sep]);
      assert Split(Join(rest, [sep]), sep) == rest by {
        assert forall k :: 0 <= k < |rest| ==> rest[k] == parts[k + 1];
        SplitJoin(rest, sep);
      }
      SplitAfter(parts[0], Join(rest, [sep]), sep);
      assert parts == [parts[0]] + rest;
    } else {
      assert Join(parts, [sep]) == parts[0];
    }
  }

  /** Writing the list back as a comma-separated string and normalising it again changes nothing. */
  lemma NormalizeIdempotent(input: string)
    ensures NormalizeList(Join(NormalizeList(input), ",")) == NormalizeList(input)
  {
    var xs := NormalizeList(input);
    if xs == [] {
      assert Split("", ',') == [""];
      assert Trim("") == "";
    } else {
      forall k | 0 <= k < |xs| ensures ',' !in xs[k] {
        assert xs[k] in xs;
      }
      SplitJoin(xs, ',');
      CleanFixed(xs);
    }
  }

  /** A product field's value. `price` is taken as already parsed; its parsing is not modelled. */
  datatype PValue = PStr(s: string) | PNum(n: int) | PList(items: seq<string>) | PTime(t: nat) | PBool(b: bool)

  type ProductData = map<string, PValue>

  const CreateFailed := "Failed to create product"

  /** The fields `createProduct` sets over the input's. */
  const Overridden: set<string> := {"price", "features", "tags", "createdAt", "updatedAt"}

  /** The values set over the input: the price, the two normalised lists and the timestamps. */
  function Overrides(features: string, tags: string, price: int, now: nat): (m: ProductData)
    ensures m.Keys == Overridden
    ensures m["features"] == PList(NormalizeList(features)) && m["tags"] == PList(NormalizeList(tags))
    ensures m["price"] == PNum(price) && m["createdAt"] == m["updatedAt"] == PTime(now)
  {
    map["price" := PNum(price), "features" := PList(NormalizeList(features)), "tags" := PList(NormalizeList(tags)),
        "createdAt" := PTime(now), "updatedAt" := PTime(now)]
  }

  /**
   * `createProduct`'s record: the input spread, then the price, the two lists and the
   * timestamps. A `features` or `tags` that is not a string makes `split` throw, which
   * surfaces as the generic failure.
   */
  function FinalProductData(data: ProductData, price: int, now: nat): (r: Result<ProductData>)
    ensures r.Failure? <==> !("features" in data && data["features"].PStr? && "tags" in data && data["tags"].PStr?)
    ensures r.Failure? ==> r.error == CreateFailed
    ensures r.Success? ==> r.value.Keys == data.Keys + Overridden
    ensures r.Success? ==> forall k :: k in Overridden ==>
      r.value[k] == Overrides(data["features"].s, data["tags"].s, price, now)[k]
    ensures r.Success? ==> forall k :: k in data && k !in Overridden ==> r.value[k] == data[k]
  {
    if !("features" in data && data["features"].PStr? && "tags" in data && data["tags"].PStr?) then
      Failure(CreateFailed)
    else
      Success(data + Overrides(data["features"].s, data["tags"].s, price, now))
  }
}
