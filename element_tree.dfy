/**
 A parsed XML document as the ElementTree API presents it: every element has a tag,
 a dictionary of attributes and an ordered list of child elements. Only the two
 lookups the feed client uses are modelled: `findall(tag)` and `find(tag)` with a
 plain tag, which look at the direct children only.
 */
module ElementTree {
  import opened Wrappers

  datatype Element = Element(tag: string, attrib: map<string, string>, children: seq<Element>)

  /** The elements of `cs` whose tag is `tag`, in their original order. */
  function Tagged(cs: seq<Element>, tag: string): (r: seq<Element>)
    ensures |r| <= |cs|
    ensures forall x :: x in r ==> x in cs && x.tag == tag
    ensures forall k :: 0 <= k < |cs| && cs[k].tag == tag ==> cs[k] in r
  {
    if cs == [] then []
    else if cs[0].tag == tag then [cs[0]] + Tagged(cs[1..], tag)
    else Tagged(cs[1..], tag)
  }

  /** `e.findall(tag)`: the direct children of `e` with that tag, in document order. */
  function FindAll(e: Element, tag: string): seq<Element>
  {
    Tagged(e.children, tag)
  }

  /** The first element of `cs` whose tag is `tag`, if any. */
  function FirstTagged(cs: seq<Element>, tag: string): (r: Option<Element>)
    ensures r.None? <==> forall k :: 0 <= k < |cs| ==> cs[k].tag != tag
    ensures r.Some? ==> exists k :: 0 <= k < |cs| && cs[k] == r.value && r.value.tag == tag &&
                                    forall j :: 0 <= j < k ==> cs[j].tag != tag
  {
    if cs == [] then None
    else if cs[0].tag == tag then Some(cs[0])
    else
      var r := FirstTagged(cs[1..], tag);
      assert r.Some? ==> exists k :: 1 <= k < |cs| && cs[k] == r.value && r.value.tag == tag &&
                                     forall j :: 0 <= j < k ==> cs[j].tag != tag by {
        if r.Some? {
          var k :| 0 <= k < |cs[1..]| && cs[1..][k] == r.value && r.value.tag == tag &&
                   forall j :: 0 <= j < k ==> cs[1..][j].tag != tag;
          assert cs[k + 1] == r.value;
          assert forall j :: 0 <= j < k + 1 ==> cs[j].tag != tag by {
            forall j | 0 <= j < k + 1 ensures cs[j].tag != tag {
              if j > 0 { assert cs[j] == cs[1..][j - 1]; }
            }
          }
        }
      }
      r
  }

  /** `e.find(tag)`: the first direct child of `e` with that tag, or `None`. */
  function Find(e: Element, tag: string): Option<Element>
  {
    FirstTagged(e.children, tag)
  }

  /** `find` returns exactly the head of what `findall` returns. */
  lemma {:induction false} FirstTaggedIsHeadOfTagged(cs: seq<Element>, tag: string)
    ensures FirstTagged(cs, tag) == if Tagged(cs, tag) == [] then None else Some(Tagged(cs, tag)[0])
  {
    if cs != [] && cs[0].tag != tag {
      FirstTaggedIsHeadOfTagged(cs[1..], tag);
    }
  }

  lemma FindIsHeadOfFindAll(e: Element, tag: string)
    ensures Find(e, tag) == if FindAll(e, tag) == [] then None else Some(FindAll(e, tag)[0])
  {
    FirstTaggedIsHeadOfTagged(e.children, tag);
  }

  /** Selecting by tag keeps document order: it distributes over concatenation. */
  lemma {:induction false} TaggedAppend(a: seq<Element>, b: seq<Element>, tag: string)
    ensures Tagged(a + b, tag) == Tagged(a, tag) + Tagged(b, tag)
  {
    if a != [] {
      assert (a + b)[1..] == a[1..] + b;
      TaggedAppend(a[1..], b, tag);
    } else {
      assert a + b == b;
    }
  }
}
