/**
  The dataset listing: how a Hugging Face dataset record becomes the
  dictionary the dashboard shows (name, size, size category, ownership, size
  label), and how a listing skips the records whose processing raises.
 */
module Datasets {
  import opened Text

  /** The JSON values the derivation looks at (absent keys read as `Null`, or `""` where the source defaults to it). */
  datatype Json = Str(s: string) | Int(n: int) | Null

  /** Python truthiness of such a value. */
  predicate Truthy(v: Json) {
    match v
    case Str(s) => s != []
    case Int(n) => n != 0
    case Null => false
  }

  /** `cardData`, reduced to its two size keys. */
  datatype Card = Card(size: Json, sizeInBytes: Json)

  /** A dataset record from the hub. */
  datatype Raw = Raw(id: Json, author: Json, size: Json, sizeInBytes: Json, sizeBytes: Json,
                     cardData: Option<Card>, tags: seq<Json>)

  /** An evaluation that raises, or returns a value. */
  datatype Attempt<T> = Raises | Returns(value: T)

  // ----- size -----

  /** The size fields in the order the source tries them. */
  function Candidates(r: Raw): (c: seq<Json>)
    ensures |c| == 5
  {
    [r.size, r.sizeInBytes, r.sizeBytes]
    + (if r.cardData.Some? then [r.cardData.value.size, r.cardData.value.sizeInBytes] else [Null, Null])
  }

  /** The first truthy value of a list, or `Null`. */
  function FirstTruthy(vs: seq<Json>): Json {
    if vs == [] then Null else if Truthy(vs[0]) then vs[0] else FirstTruthy(vs[1..])
  }

  lemma {:induction false} FirstTruthySpec(vs: seq<Json>)
    ensures FirstTruthy(vs) == Null <==> forall k :: 0 <= k < |vs| ==> !Truthy(vs[k])
    ensures FirstTruthy(vs) != Null ==>
      exists k :: 0 <= k < |vs| && FirstTruthy(vs) == vs[k] && Truthy(vs[k]) && forall m :: 0 <= m < k ==> !Truthy(vs[m])
  {
    if vs != [] && !Truthy(vs[0]) {
      FirstTruthySpec(vs[1..]);
      assert forall k :: 1 <= k < |vs| ==> vs[k] == vs[1..][k - 1];
      if FirstTruthy(vs) != Null {
        var k :| 0 <= k < |vs[1..]| && FirstTruthy(vs[1..]) == vs[1..][k] && Truthy(vs[1..][k])
                 && forall m :: 0 <= m < k ==> !Truthy(vs[1..][m]);
        assert forall m :: 0 <= m < k + 1 ==> !Truthy(vs[m]) by {
          forall m | 0 <= m < k + 1
            ensures !Truthy(vs[m])
          {
            if m > 0 {
              assert vs[m] == vs[1..][m - 1];
            }
          }
        }
        assert FirstTruthy(vs) == vs[k + 1];
      }
    }
  }

  /** The `if … elif …` chain that picks the size. */
  function SizeOf(r: Raw): Json {
    if Truthy(r.size) then r.size
    else if Truthy(r.sizeInBytes) then r.sizeInBytes
    else if Truthy(r.sizeBytes) then r.sizeBytes
    else if r.cardData.Some? then
      (if Truthy(r.cardData.value.size) then r.cardData.value.size
       else if Truthy(r.cardData.value.sizeInBytes) then r.cardData.value.sizeInBytes
       else Null)
    else Null
  }

  /**
    The size is the first truthy value among `size`, `sizeInBytes`,
    `size_bytes`, `cardData.size` and `cardData.sizeInBytes`, and there is none
    when all five are falsy.
   */
  lemma SizePrecedence(r: Raw)
    ensures SizeOf(r) == FirstTruthy(Candidates(r))
    ensures SizeOf(r) == Null <==> forall k :: 0 <= k < 5 ==> !Truthy(Candidates(r)[k])
    ensures SizeOf(r) != Null ==> exists k :: 0 <= k < 5 && SizeOf(r) == Candidates(r)[k] && forall m :: 0 <= m < k ==> !Truthy(Candidates(r)[m])
  {
    var c := Candidates(r);
    assert FirstTruthy(c) == if Truthy(c[0]) then c[0] else FirstTruthy(c[1..]);
    assert FirstTruthy(c[1..]) == if Truthy(c[1]) then c[1] else FirstTruthy(c[2..]);
    assert c[1..][1..] == c[2..];
    assert FirstTruthy(c[2..]) == if Truthy(c[2]) then c[2] else FirstTruthy(c[3..]);
    assert c[2..][1..] == c[3..];
    assert FirstTruthy(c[3..]) == if Truthy(c[3]) then c[3] else FirstTruthy(c[4..]);
    assert c[3..][1..] == c[4..];
    assert FirstTruthy(c[4..]) == if Truthy(c[4]) then c[4] else FirstTruthy(c[5..]);
    assert c[4..][1..] == c[5..] == [];
    FirstTruthySpec(c);
  }

  // ----- size category -----

  const CategoryPrefix := "size_categories:"

  /** The `for tag in tags` search: the first tag with the prefix, every occurrence of the prefix removed; a non-text tag reached first raises. */
  function CategoryOf(tags: seq<Json>): Attempt<Option<string>> {
    if tags == [] then Returns(None)
    else if !tags[0].Str? then Raises
    else if StartsWith(tags[0].s, CategoryPrefix) then Returns(Some(ReplaceAll(tags[0].s, CategoryPrefix, "")))
    else CategoryOf(tags[1..])
  }

  /** A tag that is the prefix followed by a text free of it gives that text. */
  lemma CategoryValue(rest: string)
    requires !Contains(rest, CategoryPrefix)
    ensures CategoryOf([Str(CategoryPrefix + rest)]) == Returns(Some(rest))
  {
    var t := CategoryPrefix + rest;
    assert t[..|CategoryPrefix|] == CategoryPrefix;
    assert t[|CategoryPrefix|..] == rest;
    assert ReplaceAll(t, CategoryPrefix, "") == "" + ReplaceAll(rest, CategoryPrefix, "");
    assert ReplaceAll(rest, CategoryPrefix, "") == rest;
    assert "" + rest == rest;
    var tags := [Str(t)];
    assert tags[0].Str? && tags[0].s == t && StartsWith(t, CategoryPrefix);
    assert CategoryOf(tags) == Returns(Some(ReplaceAll(t, CategoryPrefix, "")));
  }

  /**
    A category is found exactly at the first tag with the prefix, every
    earlier tag being text without it; none is found when every tag is text
    without the prefix.
   */
  lemma {:induction false} CategoryOfSpec(tags: seq<Json>)
    ensures CategoryOf(tags) == Returns(None) <==>
      forall k :: 0 <= k < |tags| ==> tags[k].Str? && !StartsWith(tags[k].s, CategoryPrefix)
    ensures CategoryOf(tags).Returns? && CategoryOf(tags).value.Some? ==>
      exists k :: 0 <= k < |tags| && tags[k].Str? && StartsWith(tags[k].s, CategoryPrefix)
        && CategoryOf(tags).value.value == ReplaceAll(tags[k].s, CategoryPrefix, "")
        && forall m :: 0 <= m < k ==> tags[m].Str? && !StartsWith(tags[m].s, CategoryPrefix)
  {
    if tags != [] && tags[0].Str? && !StartsWith(tags[0].s, CategoryPrefix) {
      var rest := tags[1..];
      CategoryOfSpec(rest);
      assert forall k :: 1 <= k < |tags| ==> tags[k] == rest[k - 1];
      if CategoryOf(tags).Returns? && CategoryOf(tags).value.Some? {
        var k :| 0 <= k < |rest| && rest[k].Str? && StartsWith(rest[k].s, CategoryPrefix)
          && CategoryOf(rest).value.value == ReplaceAll(rest[k].s, CategoryPrefix, "")
          && forall m :: 0 <= m < k ==> rest[m].Str? && !StartsWith(rest[m].s, CategoryPrefix);
        assert tags[k + 1] == rest[k];
        assert forall m :: 0 <= m < k + 1 ==> tags[m].Str? && !StartsWith(tags[m].s, CategoryPrefix) by {
          forall m | 0 <= m < k + 1
            ensures tags[m].Str? && !StartsWith(tags[m].s, CategoryPrefix)
          {
            if m > 0 {
              assert tags[m] == rest[m - 1];
            }
          }
        }
      }
    }
  }

  /** The tag loop with its `break`. */
  method FindCategory(tags: seq<Json>) returns (r: Attempt<Option<string>>)
    ensures r == CategoryOf(tags)
  {
    var i := 0;
    while i < |tags|
      invariant 0 <= i <= |tags|
      invariant CategoryOf(tags) == CategoryOf(tags[i..])
    {
      assert tags[i..][0] == tags[i] && tags[i..][1..] == tags[i + 1..];
      var tag := tags[i];
      if !tag.Str? {
        return Raises;
      }
      if StartsWith(tag.s, CategoryPrefix) {
        return Returns(Some(ReplaceAll(tag.s, CategoryPrefix, "")));
      }
      i := i + 1;
    }
    return Returns(None);
  }

  // ----- size label -----

  /**
    The size label: `FormattedBytes(n)` stands for `_format_size(n)` (its
    floating-point text is not modelled), `CategoryLabel` for the category.
   */
  datatype SizeLabel = FormattedBytes(n: nat) | CategoryLabel(text: string)

  /**
    `_format_size` indexes five unit names with `floor(log(n, 1024))`, and
    raises an uncaught `IndexError` once that index is 5. The index is
    computed in double precision, where the quotient `log(n) / log(1024)`
    already rounds to 5.0 for the three sizes just below 1024^5 (with an
    IEEE 754 `log` correctly rounded at these arguments). The first raising
    size is therefore 1024^5 - 3.
   */
  const UnitLimit := 1024 * 1024 * 1024 * 1024 * 1024 - 3

  /** `int(size)` for the values modelled: an integer, or a text of decimal digits. */
  function IntOf(v: Json): Option<int> {
    match v
    case Int(n) => Some(n)
    case Str(s) => if s != [] && forall i :: 0 <= i < |s| ==> '0' <= s[i] <= '9' then Some(ParseNat(s)) else None
    case Null => None
  }

  /** `size_formatted`: from a truthy size when it converts, else the category when truthy, else none. */
  function SizeFormatted(size: Json, category: Option<string>): (r: Attempt<Option<SizeLabel>>)
    ensures r.Raises? ==> Truthy(size) && IntOf(size).Some? && IntOf(size).value >= UnitLimit
    ensures Truthy(size) && IntOf(size).None? ==> r == Returns(None)
    ensures !Truthy(size) ==> r == Returns(if category.Some? && category.value != [] then Some(CategoryLabel(category.value)) else None)
    ensures r.Returns? && r.value.Some? && r.value.value.FormattedBytes? ==> Truthy(size) && IntOf(size) == Some(r.value.value.n)
  {
    if Truthy(size) then
      var n := IntOf(size);
      if n.None? then Returns(None)
      else if n.value < 0 then Returns(None)
      else if n.value >= UnitLimit then Raises
      else Returns(Some(FormattedBytes(n.value)))
    else if category.Some? && category.value != [] then Returns(Some(CategoryLabel(category.value)))
    else Returns(None)
  }

  // ----- the derived record -----

  datatype Derived = Derived(id: string, name: string, fullName: string, author: Json, size: Json,
                             sizeCategory: Option<string>, sizeFormatted: Option<SizeLabel>)

  /** `id.split("/")[-1] if "/" in id else id`. */
  function NameOf(id: string): (name: string)
    ensures '/' !in name
  {
    if '/' in id then LastSegment(id, '/') else id
  }

  /** The name is the part of the id after its last '/', the whole id when it has none. */
  lemma NameSpec(id: string)
    ensures var name := NameOf(id);
      && |name| <= |id| && id[|id| - |name|..] == name
      && (|name| < |id| ==> id[|id| - |name| - 1] == '/')
      && ('/' !in id ==> name == id)
  {
    LastSegmentSpec(id, '/');
  }

  /**
    The fields `_process_dataset_details` and `_process_datasets` share; the
    record raises (and is dropped or answered with an empty dictionary) when
    its id is not text, when a tag before the category is not text, or when
    its size is too large for `_format_size`.
   */
  function Derive(r: Raw): (d: Attempt<Derived>)
    ensures d.Returns? ==> r.id.Str? && d.value.id == r.id.s && d.value.name == NameOf(r.id.s) && d.value.fullName == r.id.s
    ensures d.Returns? ==> d.value.size == SizeOf(r) && CategoryOf(r.tags) == Returns(d.value.sizeCategory)
    ensures d.Returns? ==> SizeFormatted(SizeOf(r), d.value.sizeCategory) == Returns(d.value.sizeFormatted)
    ensures d.Raises? <==> !r.id.Str? || CategoryOf(r.tags).Raises? || SizeFormatted(SizeOf(r), CategoryOf(r.tags).value).Raises?
  {
    var size := SizeOf(r);
    var category := CategoryOf(r.tags);
    if category.Raises? || !r.id.Str? then Raises
    else
      var formatted := SizeFormatted(size, category.value);
      if formatted.Raises? then Raises
      else Returns(Derived(r.id.s, NameOf(r.id.s), r.id.s, r.author, size, category.value, formatted.value))
  }

  /** A listed dataset: the derived fields and `is_owner`. */
  datatype Listed = Listed(fields: Derived, isOwner: bool)

  /** `is_owner`: a non-empty user name equal to the author. */
  function IsOwner(username: Option<string>, author: Json): (owner: bool)
    ensures owner <==> username.Some? && username.value != [] && author == Str(username.value)
    ensures username.None? ==> !owner
  {
    if username.Some? && username.value != [] then author == Str(username.value) else false
  }

  /** One iteration of `_process_datasets`. */
  function ListedOf(r: Raw, username: Option<string>): Attempt<Listed> {
    var d := Derive(r);
    if d.Raises? then Raises else Returns(Listed(d.value, IsOwner(username, r.author)))
  }

  /** `[ListedOf(r)]` for a record that does not raise, nothing for one that does. */
  function Kept(rs: seq<Raw>, username: Option<string>): seq<Listed>
    decreases |rs|
  {
    if rs == [] then []
    else
      var l := ListedOf(rs[|rs| - 1], username);
      Kept(rs[..|rs| - 1], username) + (if l.Returns? then [l.value] else [])
  }

  /** The listing is never longer than the input and holds only processed input records. */
  lemma {:induction false} KeptFromInput(rs: seq<Raw>, username: Option<string>)
    ensures |Kept(rs, username)| <= |rs|
    ensures forall k :: 0 <= k < |Kept(rs, username)| ==>
      exists j :: 0 <= j < |rs| && ListedOf(rs[j], username) == Returns(Kept(rs, username)[k])
    decreases |rs|
  {
    if rs != [] {
      var init := rs[..|rs| - 1];
      KeptFromInput(init, username);
      var prev := Kept(init, username);
      var out := Kept(rs, username);
      var l := ListedOf(rs[|rs| - 1], username);
      assert out == prev + (if l.Returns? then [l.value] else []);
      forall k | 0 <= k < |out|
        ensures exists j :: 0 <= j < |rs| && ListedOf(rs[j], username) == Returns(out[k])
      {
        if k < |prev| {
          assert out[k] == prev[k];
          var j :| 0 <= j < |init| && ListedOf(init[j], username) == Returns(prev[k]);
          assert rs[j] == init[j];
        } else {
          assert ListedOf(rs[|rs| - 1], username) == Returns(out[k]);
        }
      }
    }
  }

  /** When no record raises, the listing is exactly the processed input, in order. */
  lemma {:induction false} KeptAll(rs: seq<Raw>, username: Option<string>)
    requires forall j :: 0 <= j < |rs| ==> ListedOf(rs[j], username).Returns?
    ensures |Kept(rs, username)| == |rs|
    ensures forall j :: 0 <= j < |rs| ==> Kept(rs, username)[j] == ListedOf(rs[j], username).value
    decreases |rs|
  {
    if rs != [] {
      var init, last := rs[..|rs| - 1], ListedOf(rs[|rs| - 1], username);
      assert forall j :: 0 <= j < |init| ==> init[j] == rs[j];
      KeptAll(init, username);
      assert last.Returns?;
      var kept := Kept(rs, username);
      assert kept == Kept(init, username) + [last.value];
      forall j | 0 <= j < |rs|
        ensures kept[j] == ListedOf(rs[j], username).value
      {
        if j < |init| {
          assert kept[j] == Kept(init, username)[j];
        }
      }
    }
  }

  /** `_process_datasets`: the loop that appends each processed record and skips the ones that raise. */
  method ProcessDatasets(rs: seq<Raw>, username: Option<string>) returns (out: seq<Listed>)
    ensures out == Kept(rs, username)
  {
    out := [];
    var i := 0;
    while i < |rs|
      invariant 0 <= i <= |rs|
      invariant out == Kept(rs[..i], username)
    {
      assert rs[..i + 1][..i] == rs[..i];
      var l := ListedOf(rs[i], username);
      if l.Returns? {
        out := out + [l.value];
      }
      i := i + 1;
    }
    assert rs[..i] == rs;
  }

  /** `_process_dataset_details`: the derived fields, or the empty dictionary (`None` here) when processing raises. */
  function Details(r: Raw): (d: Option<Derived>)
    ensures d.None? <==> Derive(r).Raises?
    ensures d.Some? ==> Derive(r) == Returns(d.value)
  {
    if Derive(r).Raises? then None else Some(Derive(r).value)
  }

  /** The listing and the details derive the same fields from a record that does not raise. */
  lemma ListedMatchesDetails(r: Raw, username: Option<string>)
    requires Details(r).Some?
    ensures ListedOf(r, username) == Returns(Listed(Details(r).value, IsOwner(username, r.author)))
  {
  }
}
