/** The tag list of an OpenShift image stream (its Spec.Tags), without annotations. */
module ImageStreams {
  import opened Options

  /** `from` is the image the tag points to, when one is given. */
  datatype Tag = Tag(name: string, from: Option<string>, insecure: bool)

  predicate HasName(tags: seq<Tag>, name: string) {
    exists k :: 0 <= k < |tags| && tags[k].name == name
  }

  predicate DistinctNames(tags: seq<Tag>) {
    forall j, k :: 0 <= j < k < |tags| ==> tags[j].name != tags[k].name
  }

  lemma HasNameAppend(tags: seq<Tag>, t: Tag, name: string)
    ensures HasName(tags + [t], name) <==> HasName(tags, name) || t.name == name
  {
    var more := tags + [t];
    if HasName(tags, name) {
      var k :| 0 <= k < |tags| && tags[k].name == name;
      assert more[k].name == name;
    }
    if t.name == name {
      assert more[|tags|].name == name;
    }
  }

  /** CreateImageStreamIfNotExists on a tag list: the tag is appended unless its name is there. */
  function WithTag(tags: seq<Tag>, t: Tag): (r: seq<Tag>)
    ensures tags <= r && HasName(r, t.name) && (r == tags || r == tags + [t])
    ensures DistinctNames(tags) ==> DistinctNames(r)
    ensures HasName(tags, t.name) <==> r == tags
  {
    HasNameAppend(tags, t, t.name);
    if HasName(tags, t.name) then tags else tags + [t]
  }

  /** checkIfTagExists and the loop of createRequiredKogitoImageStreamTag: a search with early exit. */
  method FindTag(tags: seq<Tag>, name: string) returns (tagExists: bool)
    ensures tagExists <==> HasName(tags, name)
  {
    tagExists := false;
    for k := 0 to |tags|
      invariant !tagExists && forall j :: 0 <= j < k ==> tags[j].name != name
    {
      if tags[k].name == name {
        tagExists := true;
        break;
      }
    }
  }
}
