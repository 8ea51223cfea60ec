/**
  How a block's value decides how often it is rendered: the overlays a
  section iterates over, the context each repetition sees, and the test of
  an inverted section.
 */
module Iteration {
  import opened Values

  /** What one element of an iterated value adds to the context: its fields if it is a map, nothing otherwise. */
  function Overlay(e: Value): map<string, Value> {
    if e.Obj? then e.fields else map[]
  }

  /**
    `Section.maps`: one empty overlay when the value's string form reads as
    `true`, one overlay per element of a collection, none otherwise.
   */
  function Maps(v: Value): seq<map<string, Value>> {
    if ParseBoolean(Display(v)) then [map[]]
    else if v.List? then seq(|v.items|, k requires 0 <= k < |v.items| => Overlay(v.items[k]))
    else []
  }

  /** `Section.merge`: the enclosing context overlaid by an element's map. */
  function Merge(orig: Context, overlay: map<string, Value>): (r: Context)
    ensures r.Keys == orig.Keys + overlay.Keys
    ensures forall k :: k in overlay ==> r[k] == overlay[k]
    ensures forall k :: k in orig && k !in overlay ==> r[k] == orig[k]
  {
    orig + overlay
  }

  /** The condition of `InvSection.render`: an empty collection, or a value whose string form is exactly `false`. */
  predicate Allowed(v: Value) {
    (v.List? && |v.items| == 0) || Display(v) == "false"
  }

  /** `Section.maps` as the source builds it: element by element. */
  method CollectMaps(v: Value) returns (maps: seq<map<string, Value>>)
    ensures maps == Maps(v)
  {
    maps := [];
    if ParseBoolean(Display(v)) {
      maps := [map[]];
    } else if v.List? {
      var k := 0;
      while k < |v.items|
        invariant k <= |v.items| && |maps| == k
        invariant forall j :: 0 <= j < k ==> maps[j] == Overlay(v.items[j])
      {
        var elem := v.items[k];
        if elem.Obj? {
          maps := maps + [elem.fields];
        } else {
          maps := maps + [map[]];
        }
        k := k + 1;
      }
    }
  }

  /** `Section.merge` as the source builds it: a copy of the context, then each entry of the overlay put in. */
  method MergeInto(orig: Context, overlay: map<string, Value>) returns (merged: Context)
    ensures merged == Merge(orig, overlay)
  {
    merged := orig;
    var todo := overlay.Keys;
    while todo != {}
      invariant todo <= overlay.Keys
      invariant merged == orig + (overlay - todo)
      decreases todo
    {
      var k :| k in todo;
      merged := merged[k := overlay[k]];
      todo := todo - {k};
    }
  }

  /**
    The repetitions of a section: a boolean renders once when true and not
    at all when false, a collection once per element with the element's
    fields (nothing for an element that is not a map), a number or a map
    never.
   */
  lemma Repetitions(v: Value)
    ensures v.Bool? ==> Maps(v) == if v.b then [map[]] else []
    ensures v.Int? || v.Obj? ==> Maps(v) == []
    ensures v.List? ==> |Maps(v)| == |v.items|
    ensures v.List? ==> forall k :: 0 <= k < |v.items| ==> Maps(v)[k] == if v.items[k].Obj? then v.items[k].fields else map[]
  {
    if v.Int? || v.Obj? || v.List? {
      DisplayOfNonText(v);
    }
  }

  /**
    An inverted section renders for `false`, an empty collection or a
    string that is exactly "false"; never for `true`, a non-empty
    collection, a number or a map.
   */
  lemma InvertedCases(v: Value)
    ensures v.Bool? ==> (Allowed(v) <==> !v.b)
    ensures v.List? ==> (Allowed(v) <==> |v.items| == 0)
    ensures v.Str? ==> (Allowed(v) <==> v.s == "false")
    ensures v.Int? || v.Obj? ==> !Allowed(v)
  {
    if v.Int? || v.Obj? || v.List? {
      DisplayOfNonText(v);
    }
  }

  /**
    For a boolean or a collection, exactly one of a section and an inverted
    section of the same name renders its body.
   */
  lemma SectionOrInverted(v: Value)
    requires v.Bool? || v.List?
    ensures |Maps(v)| > 0 <==> !Allowed(v)
  {
    Repetitions(v);
    InvertedCases(v);
  }
}
