/** The peer directory: a search over the listed students and the follow toggle. */
module PeerFinder {
  import opened Types
  import opened Strings
  import opened Seqs

  /** `filteredPeers`'s test (PeerFinder.tsx:42-46). */
  predicate PeerMatches(peer: Peer, searchTerm: string)
  {
    var term := ToLower(searchTerm);
    || Contains(ToLower(peer.name), term)
    || Contains(ToLower(peer.subject), term)
    || exists i :: 0 <= i < |peer.tags| && Contains(ToLower(peer.tags[i]), term)
  }

  function Matching(searchTerm: string): Peer -> bool
  {
    (p: Peer) => PeerMatches(p, searchTerm)
  }

  /** `filteredPeers` (PeerFinder.tsx:42-46). */
  function FilteredPeers(peers: seq<Peer>, searchTerm: string): (r: seq<Peer>)
    ensures forall p :: p in r <==> p in peers && PeerMatches(p, searchTerm)
    ensures IsSubsequence(r, peers)
  {
    FilterIsSubsequence(peers, Matching(searchTerm));
    Filter(peers, Matching(searchTerm))
  }

  /** Every string contains the empty string. */
  lemma ContainsEmpty(s: string)
    ensures Contains(s, "")
  {
  }

  /** An empty search keeps every peer, in order. */
  lemma EmptySearchKeepsAll(peers: seq<Peer>)
    ensures FilteredPeers(peers, "") == peers
  {
    forall p | p in peers
      ensures Matching("")(p)
    {
      ContainsEmpty(ToLower(p.name));
    }
    FilterKeepsAll(peers, Matching(""));
  }

  function IsNot(id: string): string -> bool
  {
    (fid: string) => fid != id
  }

  /** `newFollowed` (PeerFinder.tsx:21-23): drop the id if present, else append it. */
  function Toggled(followed: seq<string>, id: string): (r: seq<string>)
    ensures id in r <==> id !in followed
    ensures forall other :: other != id ==> (other in r <==> other in followed)
  {
    if id in followed then Filter(followed, IsNot(id)) else followed + [id]
  }

  /** Toggling never creates a duplicate id. */
  lemma ToggledNoDuplicates(followed: seq<string>, id: string)
    requires NoDuplicates(followed)
    ensures NoDuplicates(Toggled(followed, id))
  {
    if id in followed {
      FilterIsSubsequence(followed, IsNot(id));
      SubsequenceNoDuplicates(Filter(followed, IsNot(id)), followed);
    }
  }

  /** Toggling twice gives back the same ids; exactly the same list when the id was not followed. */
  lemma ToggledTwice(followed: seq<string>, id: string)
    ensures forall other :: other in Toggled(Toggled(followed, id), id) <==> other in followed
    ensures id !in followed ==> Toggled(Toggled(followed, id), id) == followed
  {
    if id !in followed {
      FilterAppend(followed, id, IsNot(id));
      FilterKeepsAll(followed, IsNot(id));
    }
  }

  /** The directory's follow list. */
  class Finder {
    var followedIds: seq<string>

    /** `followedIds` is what local storage held, or empty. */
    constructor (saved: seq<string>)
      ensures followedIds == saved
    {
      followedIds := saved;
    }

    /** `toggleFollow` (PeerFinder.tsx:20-31); the result says whether `onFollow` is called. */
    method ToggleFollow(peer: Peer) returns (notify: bool)
      modifies this`followedIds
      ensures followedIds == Toggled(old(followedIds), peer.id)
      ensures notify <==> peer.id !in old(followedIds)
    {
      var wasFollowed := peer.id in followedIds;
      var newFollowed := if wasFollowed then Filter(followedIds, IsNot(peer.id)) else followedIds + [peer.id];
      notify := !wasFollowed;
      followedIds := newFollowed;
    }
  }
}
