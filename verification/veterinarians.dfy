/** The `Veterinarian` record and the extraction of records from listing
    blocks (`parse_single_veterinarian`, `get_single_page_veterinarian`). */
module Veterinarians {
  import opened Wrappers
  import opened Text
  import opened Markup

  /** One directory entry. `clinic` is the only field that may be absent.
      `numReviews` keeps the token that `parse_single_veterinarian` hands to
      `float()`. */
  datatype Veterinarian = Veterinarian(
    name: string,
    clinic: Option<string>,
    receptionTime: string,
    address: string,
    rating: nat,
    numReviews: string
  )

  /** The faults that abort a run. The first five are the `AttributeError`
      of reading `.text` or calling `.find_all` on a missing element; the
      sixth is the `IndexError` of `split()[0]` on a blank caption; the last
      is the wait for the readiness marker running out on a page. */
  datatype Fault =
    | MissingTitle
    | MissingHours
    | MissingAddress
    | MissingStarRating
    | MissingRatingNote
    | BlankRatingNote
    | WaitTimeout(page: nat)

  /** The selector whose matches make up the rating. */
  const RatingIndicator := "span"

  /** Whether every element the extractor requires is present and the rating
      caption has a first word. */
  predicate Complete(l: Listing) {
    && l.title.Some? && l.hours.Some? && l.address.Some?
    && l.starRating.Some? && l.ratingNote.Some?
    && Split(l.ratingNote.value) != []
  }

  /** `parse_single_veterinarian`: the record of one listing block. A missing
      subtitle becomes an absent clinic; any other missing element is a
      fault, reported for the first of them in the order the constructor's
      arguments are evaluated. */
  function ParseListing(l: Listing): (r: Result<Veterinarian, Fault>)
    ensures r.Success? <==> Complete(l)
    ensures r.Success? ==>
      && r.value.name == l.title.value
      && (r.value.clinic.None? <==> l.subtitle.None?)
      && (l.subtitle.Some? ==> r.value.clinic.value == l.subtitle.value)
      && r.value.receptionTime == l.hours.value
      && r.value.address == l.address.value
      && r.value.rating == |FindAll(RatingIndicator, l.starRating.value)|
      && r.value.numReviews == Split(l.ratingNote.value)[0]
    ensures l.title.None? ==> r == Failure(MissingTitle)
    ensures l.title.Some? && l.hours.None? ==> r == Failure(MissingHours)
    ensures l.title.Some? && l.hours.Some? && l.address.None? ==> r == Failure(MissingAddress)
    ensures (l.title.Some? && l.hours.Some? && l.address.Some? && l.starRating.None?)
      ==> r == Failure(MissingStarRating)
    ensures (l.title.Some? && l.hours.Some? && l.address.Some? && l.starRating.Some?
             && l.ratingNote.None?) ==> r == Failure(MissingRatingNote)
    ensures (l.title.Some? && l.hours.Some? && l.address.Some? && l.starRating.Some?
             && l.ratingNote.Some? && AllSpace(l.ratingNote.value)) ==> r == Failure(BlankRatingNote)
  {
    var clinic := l.subtitle;
    if l.title.None? then Failure(MissingTitle)
    else if l.hours.None? then Failure(MissingHours)
    else if l.address.None? then Failure(MissingAddress)
    else if l.starRating.None? then Failure(MissingStarRating)
    else if l.ratingNote.None? then Failure(MissingRatingNote)
    else
      var words := Split(l.ratingNote.value);
      if words == [] then Failure(BlankRatingNote)
      else
        Success(Veterinarian(
          l.title.value,
          clinic,
          l.hours.value,
          l.address.value,
          |FindAll(RatingIndicator, l.starRating.value)|,
          words[0]))
  }

  /** The subtitle is the one element whose absence is tolerated: removing or
      replacing it changes the clinic and nothing else. */
  lemma ClinicIsTheOnlySoftField(l: Listing, subtitle: Option<string>)
    ensures ParseListing(l).Success? == ParseListing(l.(subtitle := subtitle)).Success?
    ensures ParseListing(l).Success? ==>
      ParseListing(l.(subtitle := subtitle)).value == ParseListing(l).value.(clinic := subtitle)
    ensures ParseListing(l).Failure? ==>
      ParseListing(l.(subtitle := subtitle)).error == ParseListing(l).error
  {
  }

  /** Block `i` is the first of `ls` that cannot be parsed, failing with `f`. */
  predicate FirstFaultAt(ls: seq<Listing>, i: int, f: Fault) {
    && 0 <= i < |ls|
    && ParseListing(ls[i]) == Failure(f)
    && forall j :: 0 <= j < i ==> ParseListing(ls[j]).Success?
  }

  lemma FirstFaultAfterHead(ls: seq<Listing>, i: int, f: Fault)
    requires |ls| > 0 && ParseListing(ls[0]).Success?
    requires FirstFaultAt(ls[1..], i, f)
    ensures FirstFaultAt(ls, i + 1, f)
  {
    forall j | 0 <= j < i + 1
      ensures ParseListing(ls[j]).Success?
    {
      if j > 0 {
        assert ls[j] == ls[1..][j - 1];
      }
    }
  }

  /** `get_single_page_veterinarian` over a sequence of listing blocks: one
      record per block in document order, or the fault of the first block
      that cannot be parsed. */
  function ExtractAll(ls: seq<Listing>): (r: Result<seq<Veterinarian>, Fault>)
    ensures r.Success? <==> forall i :: 0 <= i < |ls| ==> ParseListing(ls[i]).Success?
    ensures r.Success? ==>
      && |r.value| == |ls|
      && forall i :: 0 <= i < |ls| ==> ParseListing(ls[i]) == Success(r.value[i])
    ensures r.Failure? ==> exists i :: FirstFaultAt(ls, i, r.error)
  {
    if ls == [] then Success([])
    else
      match ParseListing(ls[0])
      case Failure(f) =>
        assert FirstFaultAt(ls, 0, f);
        Failure(f)
      case Success(v) =>
        match ExtractAll(ls[1..])
        case Failure(f) =>
          var i :| FirstFaultAt(ls[1..], i, f);
          FirstFaultAfterHead(ls, i, f);
          Failure(f)
        case Success(vs) =>
          assert forall i :: 1 <= i < |ls| ==> ls[i] == ls[1..][i - 1];
          Success([v] + vs)
  }

  /** Extraction of a whole rendered page. */
  function ExtractPage(p: Page): (r: Result<seq<Veterinarian>, Fault>)
    ensures r.Success? ==>
      && |r.value| == |p.listings|
      && forall i :: 0 <= i < |p.listings| ==> ParseListing(p.listings[i]) == Success(r.value[i])
    ensures r.Failure? ==> !r.error.WaitTimeout?
  {
    ExtractAll(p.listings)
  }
}
