/** The class listing (`getClasses`) and the choice of the class to book (`askForClassToBook`). */
module Classes {
  import opened Wrappers
  import opened Search

  /** One entry of the listing's `classes` array. */
  datatype RawClass = RawClass(typeId: string, location: seq<string>, starts: int, id: int)

  /** The record the script keeps per class; `starts` is in milliseconds since the epoch. */
  datatype ClassRecord = ClassRecord(category: string, location: Option<string>, starts: int, id: int)

  /** The mapping callback of `getClasses`; `location[0]` of an empty array is `undefined`. */
  function ToRecord(x: RawClass): (c: ClassRecord)
    ensures c.id == x.id && c.starts == x.starts && c.category == x.typeId
    ensures c.location.Some? <==> x.location != []
    ensures c.location.Some? ==> c.location.value == x.location[0]
  {
    ClassRecord(x.typeId, if x.location == [] then None else Some(x.location[0]), x.starts, x.id)
  }

  function Reversed<T>(s: seq<T>): (r: seq<T>)
    ensures |r| == |s|
  {
    seq(|s|, i requires 0 <= i < |s| => s[|s| - 1 - i])
  }

  /** Reversing twice gives back the original sequence. */
  lemma ReversedTwice<T>(s: seq<T>)
    ensures Reversed(Reversed(s)) == s
  {
  }

  /** `Array.prototype.reverse`: reverses the array in place. */
  method ReverseInPlace<T>(a: array<T>)
    modifies a
    ensures a[..] == Reversed(old(a[..]))
  {
    var n := a.Length;
    var i := 0;
    while i < n / 2
      invariant 0 <= i <= n / 2
      invariant forall k :: 0 <= k < i ==> a[k] == old(a[n - 1 - k]) && a[n - 1 - k] == old(a[k])
      invariant forall k :: i <= k < n - i ==> a[k] == old(a[k])
    {
      a[i], a[n - 1 - i] := a[n - 1 - i], a[i];
      i := i + 1;
    }
  }

  /** `getClasses` after the fetch: a non-200 status throws; otherwise one record per listed class,
      in listing order, since the array is reversed in place for display and reversed back. */
  method GetClasses(status: int, listed: seq<RawClass>) returns (r: Result<seq<ClassRecord>, string>)
    ensures r.Failure? <==> status != 200
    ensures r.Success? ==>
      |r.value| == |listed| && forall i :: 0 <= i < |listed| ==> r.value[i] == ToRecord(listed[i])
  {
    if status != 200 {
      return Failure("Couldn't get classes");
    }
    var mapped := new ClassRecord[|listed|](i requires 0 <= i < |listed| => ToRecord(listed[i]));
    ghost var original := mapped[..];
    ReverseInPlace(mapped);
    ReverseInPlace(mapped);
    ReversedTwice(original);
    r := Success(mapped[..]);
  }

  /** Whether the record carries the id the user entered. */
  predicate HasId(id: int, c: ClassRecord) {
    c.id == id
  }

  /** The class `askForClassToBook` settles on: the last record whose id equals the parsed id;
      `None` (`null`) when the parse gave NaN or no record matches. */
  function Selected(classes: seq<ClassRecord>, wanted: Option<int>): (r: Option<ClassRecord>)
    ensures r.None? <==> wanted.None? || forall j :: 0 <= j < |classes| ==> classes[j].id != wanted.value
    ensures r.Some? ==> wanted.Some? && r.value.id == wanted.value
    ensures r.Some? ==>
      exists j :: 0 <= j < |classes| && classes[j] == r.value &&
                 forall k :: j < k < |classes| ==> classes[k].id != wanted.value
  {
    match wanted
    case None => None
    case Some(id) =>
      match LastWhere(classes, c => HasId(id, c))
      case None => None
      case Some(j) => Some(classes[j])
  }

  /** The loop over the records that keeps reassigning `classToBook` on every match. */
  method FindClass(classes: seq<ClassRecord>, wanted: Option<int>) returns (found: Option<ClassRecord>)
    ensures found == Selected(classes, wanted)
  {
    found := None;
    for i := 0 to |classes|
      invariant found == Selected(classes[..i], wanted)
    {
      if wanted.Some? && classes[i].id == wanted.value {
        found := Some(classes[i]);
      }
      assert classes[..i + 1][..i] == classes[..i];
    }
    assert classes[..|classes|] == classes;
  }
}
