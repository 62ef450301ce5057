/**
 * Presentation dispatch and the per-row data a result list serves.
 *
 * A database record is shown through the first presentation variant, in the
 * fixed order series, movies, default, whose criteria it matches. How each
 * variant's criteria are matched, and how it derives its display fields, lives
 * in the presentation modules; here a record carries the set of variants it
 * matches and the display fields as given values.
 */
module Presentation {
  import opened Wrappers

  datatype Variant = Series | Movies | Default

  /** `PRESENTATIONS`, in priority order. */
  const Presentations: seq<Variant> := [Series, Movies, Default]

  /** The position of a variant in the priority order. */
  function Rank(v: Variant): (k: nat)
    ensures k < |Presentations| && Presentations[k] == v
  {
    match v
    case Series => 0
    case Movies => 1
    case Default => 2
  }

  /** A database record, as far as the result lists look at it. */
  datatype Asset = Asset(
    xt: Option<string>,       // the `xt` attribute (the value `.any()` picks), if present
    title: string,
    categoryIcon: string,
    tags: seq<string>,
    imageUri: string,
    matching: set<Variant>)   // the variants whose CRITERIA the record matches

  /** `x(obj)`: a record presented through variant `x`. */
  datatype ViewItem = ViewItem(variant: Variant, asset: Asset)

  /** The first of `vs` that the record matches. */
  function FirstMatch(vs: seq<Variant>, a: Asset): (r: Option<Variant>)
    ensures r.Some? ==> exists j :: 0 <= j < |vs| && vs[j] == r.value && r.value in a.matching &&
                          forall i :: 0 <= i < j ==> vs[i] !in a.matching
    ensures r.None? ==> forall i :: 0 <= i < |vs| ==> vs[i] !in a.matching
  {
    if vs == [] then None
    else if vs[0] in a.matching then Some(vs[0])
    else
      var r := FirstMatch(vs[1..], a);
      assert r.Some? ==> exists j :: 0 <= j < |vs| && vs[j] == r.value && r.value in a.matching &&
                          forall i :: 0 <= i < j ==> vs[i] !in a.matching by {
        if r.Some? {
          var j :| 0 <= j < |vs[1..]| && vs[1..][j] == r.value && r.value in a.matching &&
                   forall i :: 0 <= i < j ==> vs[1..][i] !in a.matching;
          assert vs[j + 1] == r.value;
          assert forall i :: 0 <= i < j + 1 ==> vs[i] !in a.matching by {
            forall i | 0 <= i < j + 1 ensures vs[i] !in a.matching {
              if i > 0 { assert vs[i] == vs[1..][i - 1]; }
            }
          }
        }
      }
      r
  }

  /** `mapItemToView`: the view item of the first matching variant; `assert False` when none matches. */
  function Present(a: Asset): (r: Result<ViewItem, Exception>)
    ensures r.Ok? ==> r.value.asset == a && r.value.variant in a.matching
    ensures r.Err? ==> r.error == AssertionError
  {
    match FirstMatch(Presentations, a)
    case Some(v) => Ok(ViewItem(v, a))
    case None => Err(AssertionError)
  }

  /**
   * Presentation picks the highest-priority variant the record matches, and
   * fails with an assertion exactly when the record matches no variant.
   */
  lemma PresentIsFirstMatch(a: Asset)
    ensures Present(a).Ok? <==> a.matching != {}
    ensures Present(a).Ok? ==> && Present(a).value.asset == a
                               && Present(a).value.variant in a.matching
                               && forall v :: v in a.matching ==> Rank(Present(a).value.variant) <= Rank(v)
    ensures Present(a).Err? ==> Present(a).error == AssertionError
  {
    var r := FirstMatch(Presentations, a);
    if r.None? {
      forall v ensures v !in a.matching {
        assert Presentations[Rank(v)] == v;
      }
    } else {
      var j :| 0 <= j < |Presentations| && Presentations[j] == r.value && r.value in a.matching &&
               forall i :: 0 <= i < j ==> Presentations[i] !in a.matching;
      forall v | v in a.matching ensures Rank(r.value) <= Rank(v) {
        assert Presentations[Rank(v)] == v;
      }
    }
  }

  /** The default variant is the safety net: a record it accepts is always presented. */
  lemma DefaultMakesTotal(a: Asset)
    requires Default in a.matching
    ensures Present(a).Ok?
  {
    PresentIsFirstMatch(a);
  }

  /** The loop over `PRESENTATIONS` with its early return. */
  method MapToView(a: Asset) returns (r: Result<ViewItem, Exception>)
    ensures r == Present(a)
  {
    for k := 0 to |Presentations|
      invariant FirstMatch(Presentations[k..], a) == FirstMatch(Presentations, a)
    {
      var x := Presentations[k];
      if x in a.matching {
        return Ok(ViewItem(x, a));
      }
      assert Presentations[k..][1..] == Presentations[k + 1..];
    }
    return Err(AssertionError);
  }

  // Qt item roles: Qt.DisplayRole, Qt.DecorationRole and the list's own roles above Qt.UserRole.
  const DisplayRole: int := 0
  const DecorationRole: int := 1
  const UserRole: int := 0x100
  const ObjRole: int := UserRole
  const TagsRole: int := UserRole + 1
  const ImageUriRole: int := UserRole + 2

  /** What `data` hands the view for one role. */
  datatype RoleValue = Text(text: string) | Tags(tags: seq<string>) | Obj(item: ViewItem)

  /** The field of a view item that a role selects; any other role falls back to the title. */
  function RoleData(item: ViewItem, role: int): (r: RoleValue)
    ensures r.Obj? <==> role == ObjRole
    ensures r.Tags? <==> role == TagsRole
    ensures r.Obj? ==> r.item == item
    ensures r.Tags? ==> r.tags == item.asset.tags
    ensures r.Text? && role == DecorationRole ==> r.text == item.asset.categoryIcon
    ensures r.Text? && role == ImageUriRole ==> r.text == item.asset.imageUri
    ensures r.Text? && role != DecorationRole && role != ImageUriRole ==> r.text == item.asset.title
  {
    if role == DisplayRole then Text(item.asset.title)
    else if role == DecorationRole then Text(item.asset.categoryIcon)
    else if role == TagsRole then Tags(item.asset.tags)
    else if role == ImageUriRole then Text(item.asset.imageUri)
    else if role == ObjRole then Obj(item)
    else Text(item.asset.title)
  }

  /** `data(idx, role)` over the list of view items: Python indexing, then the role's field. */
  function ItemData(items: seq<ViewItem>, row: int, role: int): (r: Result<RoleValue, Exception>)
    ensures r.Ok? <==> -|items| <= row < |items|
    ensures r.Err? ==> r.error == IndexError(row)
    ensures 0 <= row < |items| ==> r == Ok(RoleData(items[row], role))
    ensures row < 0 && r.Ok? ==> r == Ok(RoleData(items[row + |items|], role))
  {
    match PyIndex(|items|, row)
    case Some(k) => Ok(RoleData(items[k], role))
    case None => Err(IndexError(row))
  }

  /** `rowCount`: every row below it has data, and the row at it has none. */
  function RowCount(items: seq<ViewItem>): (n: nat)
    ensures forall row, role :: 0 <= row < n ==> ItemData(items, row, role).Ok?
    ensures forall role :: ItemData(items, n, role).Err?
  {
    |items|
  }
}
