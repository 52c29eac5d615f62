/**
  Link discovery (src/index.js:155-167): the bootstrap index lists links, and
  the poll URL template is the `href` of the first link whose `rel` is
  "after_sequence". When there is none, taking `[0].href` of the empty filter
  result throws; the caller catches that and retries discovery, so the model
  answers `None`.
 */
module LinkDiscovery {
  import opened Wrappers

  datatype Link = Link(rel: string, href: string)

  const AfterSequence: string := "after_sequence"

  /** `links.filter(link => "after_sequence" == link.rel)[0].href`, or `None` when it throws. */
  function SelectLink(links: seq<Link>): (r: Option<string>)
    ensures r.None? <==> forall i :: 0 <= i < |links| ==> links[i].rel != AfterSequence
    ensures r.Some? ==> (exists i :: 0 <= i < |links| && links[i].rel == AfterSequence &&
                           links[i].href == r.value && forall j :: 0 <= j < i ==> links[j].rel != AfterSequence)
  {
    if links == [] then None
    else if links[0].rel == AfterSequence then Some(links[0].href)
    else
      var r := SelectLink(links[1..]);
      assert forall i :: 1 <= i < |links| ==> links[i] == links[1..][i - 1];
      r
  }

  /** The links whose relation is "after_sequence", in order: the filter of line 164. */
  function AfterSequenceLinks(links: seq<Link>): seq<Link> {
    if links == [] then []
    else (if links[0].rel == AfterSequence then [links[0]] else []) + AfterSequenceLinks(links[1..])
  }

  /** The selected link is the head of the filtered list, and absent exactly when that list is empty. */
  lemma {:induction false} SelectLinkIsHeadOfFilter(links: seq<Link>)
    ensures SelectLink(links).None? <==> AfterSequenceLinks(links) == []
    ensures SelectLink(links).Some? ==> SelectLink(links).value == AfterSequenceLinks(links)[0].href
  {
    if links != [] && links[0].rel != AfterSequence {
      SelectLinkIsHeadOfFilter(links[1..]);
    }
  }

  /** Links with other relations, before or after, do not change the choice. */
  lemma {:induction false} OtherRelationsIgnored(before: seq<Link>, link: Link, after: seq<Link>)
    requires forall i :: 0 <= i < |before| ==> before[i].rel != AfterSequence
    requires link.rel == AfterSequence
    ensures SelectLink(before + [link] + after) == Some(link.href)
  {
    if before != [] {
      assert (before + [link] + after)[1..] == before[1..] + [link] + after;
      OtherRelationsIgnored(before[1..], link, after);
    }
  }
}
