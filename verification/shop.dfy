/**
 * The values the collection page receives from the shop context: the
 * catalog of products, the search text and the flag that shows the search
 * bar, and the case-insensitive name match the search filter uses.
 */
module Shop {

  /** A catalog entry. Prices are whole numbers. */
  datatype Product = Product(
    id: string,
    name: string,
    price: int,
    category: string,
    subCategory: string,
    image: string)

  /** What the page reads from the shop context; the page never writes it. */
  datatype ShopState = ShopState(products: seq<Product>, search: string, showSearch: bool)

  /** Lower-cases an ASCII capital letter and leaves every other character alone. */
  function LowerChar(c: char): char
  {
    if 'A' <= c <= 'Z' then (c as int - 'A' as int + 'a' as int) as char else c
  }

  /** The string lower-cased character by character (ASCII only). */
  function ToLower(s: string): (r: string)
    ensures |r| == |s|
    ensures forall i :: 0 <= i < |s| ==> r[i] == LowerChar(s[i])
  {
    if s == [] then [] else [LowerChar(s[0])] + ToLower(s[1..])
  }

  /** `needle` appears in `hay` starting at index `i`. */
  ghost predicate OccursAt(hay: string, needle: string, i: int)
  {
    0 <= i && i + |needle| <= |hay| && hay[i..i + |needle|] == needle
  }

  /**
   * The string `includes` of JavaScript: scans `hay` from the left for a
   * position where `needle` starts. The empty needle is found everywhere.
   */
  predicate Includes(hay: string, needle: string)
    decreases |hay|
  {
    needle <= hay || (hay != [] && Includes(hay[1..], needle))
  }

  /** The scan finds `needle` exactly when it occurs at some position of `hay`. */
  lemma IncludesAt(hay: string, needle: string)
    ensures Includes(hay, needle) <==> exists i :: OccursAt(hay, needle, i)
  {
    if Includes(hay, needle) {
      var i := IncludesSound(hay, needle);
    }
    if exists i :: OccursAt(hay, needle, i) {
      var i :| OccursAt(hay, needle, i);
      IncludesComplete(hay, needle, i);
    }
  }

  /** When the scan succeeds, it has found an occurrence. */
  lemma {:induction false} IncludesSound(hay: string, needle: string) returns (i: int)
    requires Includes(hay, needle)
    ensures OccursAt(hay, needle, i)
    decreases |hay|
  {
    if needle <= hay {
      i := 0;
    } else {
      var j := IncludesSound(hay[1..], needle);
      assert hay[j + 1..j + 1 + |needle|] == hay[1..][j..j + |needle|];
      i := j + 1;
    }
  }

  /** The scan reaches every occurrence. */
  lemma {:induction false} IncludesComplete(hay: string, needle: string, i: int)
    requires OccursAt(hay, needle, i)
    ensures Includes(hay, needle)
    decreases i
  {
    if i == 0 {
      assert hay[..|needle|] == needle;
    } else {
      assert hay[1..][i - 1..i - 1 + |needle|] == hay[i..i + |needle|];
      IncludesComplete(hay[1..], needle, i - 1);
    }
  }

  /** The search filter's test: the search text occurs in the name, ignoring case. */
  predicate NameMatches(name: string, search: string)
  {
    Includes(ToLower(name), ToLower(search))
  }

  /** The match ignores the case of both the name and the search text. */
  lemma NameMatchesIgnoresCase(name: string, search: string)
    ensures NameMatches(name, search) <==> exists i :: OccursAt(ToLower(name), ToLower(search), i)
    ensures NameMatches(ToLower(name), search) == NameMatches(name, search)
    ensures NameMatches(name, ToLower(search)) == NameMatches(name, search)
  {
    IncludesAt(ToLower(name), ToLower(search));
    LowerTwice(name);
    LowerTwice(search);
  }

  /** Lower-casing twice is lower-casing once. */
  lemma LowerTwice(s: string)
    ensures ToLower(ToLower(s)) == ToLower(s)
  {
    assert forall i :: 0 <= i < |s| ==> LowerChar(LowerChar(s[i])) == LowerChar(s[i]);
  }
}
