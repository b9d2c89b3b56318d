/**
 * The artists page's search: the list of artists narrowed to those whose
 * first or last name contains the search text, ignoring case, and the
 * count shown above the results.
 */
module Artists {
  import opened JsValues
  import opened JsText

  /** The fields of a user record the search reads; a name may be null. */
  datatype Artist = Artist(id: string, firstName: Option<string>, lastName: Option<string>)

  /** `name?.toLowerCase().includes(search.toLowerCase())`: a null name
      never matches. */
  predicate NameMatches(name: Option<string>, search: string) {
    name.Some? && Includes(ToLower(name.value), ToLower(search))
  }

  predicate Matches(artist: Artist, search: string) {
    NameMatches(artist.firstName, search) || NameMatches(artist.lastName, search)
  }

  /** `artists.filter(…)`: the matching artists, in their original order. */
  function FilteredArtists(artists: seq<Artist>, search: string): (r: seq<Artist>)
    ensures |r| <= |artists|
  {
    if artists == [] then []
    else
      var rest := FilteredArtists(artists[1..], search);
      if Matches(artists[0], search) then [artists[0]] + rest else rest
  }

  /** An artist is listed exactly when it was listed before and matches. */
  lemma {:induction false} FilteredMembers(artists: seq<Artist>, search: string)
    ensures forall a :: a in FilteredArtists(artists, search) <==> a in artists && Matches(a, search)
  {
    if artists != [] {
      FilteredMembers(artists[1..], search);
      assert forall a :: a in artists <==> a == artists[0] || a in artists[1..];
    }
  }

  /** Filtering a concatenation filters each part and keeps them in order:
      the result is the input with the non-matching artists removed. */
  lemma {:induction false} FilteredAppend(xs: seq<Artist>, ys: seq<Artist>, search: string)
    ensures FilteredArtists(xs + ys, search) == FilteredArtists(xs, search) + FilteredArtists(ys, search)
  {
    if xs != [] {
      assert (xs + ys)[1..] == xs[1..] + ys;
      FilteredAppend(xs[1..], ys, search);
    } else {
      assert xs + ys == ys;
    }
  }

  /** No artist is duplicated or invented by the filter. */
  lemma {:induction false} FilteredSubMultiset(artists: seq<Artist>, search: string)
    ensures multiset(FilteredArtists(artists, search)) <= multiset(artists)
  {
    if artists != [] {
      var rest := FilteredArtists(artists[1..], search);
      FilteredSubMultiset(artists[1..], search);
      assert multiset(artists) == multiset{artists[0]} + multiset(artists[1..]) by {
        assert artists == [artists[0]] + artists[1..];
      }
      if Matches(artists[0], search) {
        assert multiset([artists[0]] + rest) == multiset{artists[0]} + multiset(rest);
      }
    }
  }

  /** When every artist matches, nothing is removed. */
  lemma {:induction false} FilteredAllMatch(artists: seq<Artist>, search: string)
    requires forall a :: a in artists ==> Matches(a, search)
    ensures FilteredArtists(artists, search) == artists
  {
    if artists != [] {
      assert artists[0] in artists;
      assert forall a :: a in artists[1..] ==> a in artists;
      FilteredAllMatch(artists[1..], search);
    }
  }

  /** Searching the search results again changes nothing. */
  lemma FilteredIdempotent(artists: seq<Artist>, search: string)
    ensures FilteredArtists(FilteredArtists(artists, search), search) == FilteredArtists(artists, search)
  {
    FilteredMembers(artists, search);
    FilteredAllMatch(FilteredArtists(artists, search), search);
  }

  lemma ToLowerIdempotent(s: string)
    ensures ToLower(ToLower(s)) == ToLower(s)
  {
    forall i | 0 <= i < |s| {
      LowerCharIdempotent(s[i]);
    }
  }

  /** The search ignores the case of the search text. */
  lemma {:induction false} FilteredIgnoresCase(artists: seq<Artist>, search: string)
    ensures FilteredArtists(artists, ToLower(search)) == FilteredArtists(artists, search)
  {
    ToLowerIdempotent(search);
    if artists != [] {
      FilteredIgnoresCase(artists[1..], search);
    }
  }

  /** With an empty search every artist with at least one non-null name is
      listed, and exactly those. */
  lemma EmptySearchMatches(artist: Artist)
    ensures Matches(artist, "") <==> artist.firstName.Some? || artist.lastName.Some?
  {
    assert ToLower("") == "";
    if artist.firstName.Some? {
      IncludesEmpty(ToLower(artist.firstName.value));
    }
    if artist.lastName.Some? {
      IncludesEmpty(ToLower(artist.lastName.value));
    }
  }

  /** The text above the results: a loading notice, or the number of
      matching artists. */
  function ResultsLabel(isLoading: bool, artists: seq<Artist>, search: string): (text: string)
    ensures isLoading ==> text == "Loading..."
    ensures !isLoading ==> ParseInt(text) == Num(|FilteredArtists(artists, search)| as real)
  {
    if isLoading then "Loading..."
    else
      var n := |FilteredArtists(artists, search)|;
      ParseIntOfNatToString(n, " artists found");
      NatToString(n) + " artists found"
  }
}
