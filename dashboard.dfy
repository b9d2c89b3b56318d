/**
 * The artist dashboard: the counts over the user's own artworks, the
 * header's action button, and the requests behind "Become an Artist" and
 * the delete button.
 */
module Dashboard {
  import opened JsValues
  import opened JsText
  import Feedback

  /** `myArtworks.filter(a => a.isAvailable)` */
  function AvailableArtworks(artworks: seq<Obj>): (r: seq<Obj>)
    ensures |r| <= |artworks|
    ensures forall a :: a in r <==> a in artworks && Truthy(Get(a, "isAvailable"))
  {
    if artworks == [] then []
    else
      var rest := AvailableArtworks(artworks[1..]);
      if Truthy(Get(artworks[0], "isAvailable")) then [artworks[0]] + rest else rest
  }

  /** `myArtworks.filter(a => !a.isAvailable)` */
  function SoldArtworks(artworks: seq<Obj>): (r: seq<Obj>)
    ensures |r| <= |artworks|
    ensures forall a :: a in r <==> a in artworks && !Truthy(Get(a, "isAvailable"))
  {
    if artworks == [] then []
    else
      var rest := SoldArtworks(artworks[1..]);
      if !Truthy(Get(artworks[0], "isAvailable")) then [artworks[0]] + rest else rest
  }

  /** Every artwork is counted exactly once, as available or as sold. */
  lemma {:induction false} AvailableSoldPartition(artworks: seq<Obj>)
    ensures |AvailableArtworks(artworks)| + |SoldArtworks(artworks)| == |artworks|
    ensures multiset(AvailableArtworks(artworks)) + multiset(SoldArtworks(artworks)) == multiset(artworks)
  {
    if artworks != [] {
      AvailableSoldPartition(artworks[1..]);
      assert artworks == [artworks[0]] + artworks[1..];
    }
  }

  datatype Stats = Stats(total: nat, available: nat, sold: nat)

  /** The stat cards (the revenue card is not modelled). */
  function StatsOf(artworks: seq<Obj>): (s: Stats)
    ensures s.total == |artworks|
    ensures s.available + s.sold == s.total
    ensures s.available == |AvailableArtworks(artworks)| && s.sold == |SoldArtworks(artworks)|
  {
    AvailableSoldPartition(artworks);
    Stats(|artworks|, |AvailableArtworks(artworks)|, |SoldArtworks(artworks)|)
  }

  /** The counts of a list are the sums of the counts of its parts. */
  lemma {:induction false} StatsAppend(xs: seq<Obj>, ys: seq<Obj>)
    ensures StatsOf(xs + ys).available == StatsOf(xs).available + StatsOf(ys).available
    ensures StatsOf(xs + ys).sold == StatsOf(xs).sold + StatsOf(ys).sold
  {
    if xs == [] {
      assert xs + ys == ys;
    } else {
      assert (xs + ys)[1..] == xs[1..] + ys;
      StatsAppend(xs[1..], ys);
    }
  }

  datatype HeaderAction = AddArtwork | BecomeArtist

  /** `user?.isArtist`: an absent user is not an artist. */
  predicate IsArtist(user: Option<Obj>) {
    user.Some? && Truthy(Get(user.value, "isArtist"))
  }

  /** The button in the dashboard header. The stat cards below it are shown
      under the same `IsArtist` test. */
  function HeaderActionFor(user: Option<Obj>): (a: HeaderAction)
    ensures a == AddArtwork <==> IsArtist(user)
    ensures a == BecomeArtist <==> !IsArtist(user)
  {
    if IsArtist(user) then AddArtwork else BecomeArtist
  }

  /** A request through the client's API helper. */
  datatype ApiRequest = ApiRequest(verb: string, url: string, body: Option<Obj>)

  /** "Become an Artist" sends `{isArtist: true}` and nothing else. */
  function BecomeArtistRequest(): (r: ApiRequest)
    ensures r.verb == "PATCH" && r.url == "/api/auth/user"
    ensures r.body.Some? && r.body.value.keys == ["isArtist"] && WellFormed(r.body.value)
    ensures forall k :: Get(r.body.value, k) == if k == "isArtist" then Bool(true) else Undefined
  {
    ApiRequest("PATCH", "/api/auth/user", Some(Put(EmptyObject, "isArtist", Bool(true))))
  }

  const DeletePrefix := "/api/artworks/"

  /** `handleDeleteArtwork(id)`: a DELETE request for the artwork, sent only
      when the user confirms. */
  function DeleteRequest(id: nat, confirmed: bool): (r: Option<ApiRequest>)
    ensures r.Some? <==> confirmed
    ensures r.Some? ==>
      && r.value.verb == "DELETE" && r.value.body.None?
      && StartsWith(r.value.url, DeletePrefix)
      && ParseInt(r.value.url[|DeletePrefix|..]) == Num(id as real)
  {
    if confirmed then
      var url := DeletePrefix + NatToString(id);
      assert url[|DeletePrefix|..] == NatToString(id) + [];
      ParseIntOfNatToString(id, []);
      Some(ApiRequest("DELETE", url, None))
    else None
  }

  /** The delete mutation's error handling. */
  function DeleteFailure(unauthorized: bool): (r: (Feedback.Toast, Option<string>))
    ensures r.1.Some? <==> unauthorized
    ensures !unauthorized ==> r.0.description == "Failed to delete artwork"
  {
    Feedback.FailureFeedback(unauthorized, "Failed to delete artwork")
  }

  /** The profile update's error handling. */
  function ProfileFailure(unauthorized: bool): (r: (Feedback.Toast, Option<string>))
    ensures r.1.Some? <==> unauthorized
    ensures !unauthorized ==> r.0.description == "Failed to update profile"
  {
    Feedback.FailureFeedback(unauthorized, "Failed to update profile")
  }
}
