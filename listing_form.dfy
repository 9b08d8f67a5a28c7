/** The non-visual logic of src/components/ListingForm.tsx: the per-kind
    upload caps, removal of one media file by index, the two submission
    gates, and the construction of the listing handed to the store. */
module ListingForm {
  import opened Listings
  import opened Products

  const MaxImages: nat := 5
  const MaxVideos: nat := 2
  const MaxAudios: nat := 3

  // ---------------------------------------------------------------- uploads

  /** How an upload handler ends: no file list, the cap toast, or the batch
      appended. */
  datatype UploadOutcome = NoFiles | OverLimit | Appended

  /** One upload handler, with every accepted file read and appended in the
      order selected before the next handler runs. `files` holds the data URLs
      of the selected files, None when the input has no file list. */
  function UploadBatch(current: seq<string>, files: Option<seq<string>>, cap: nat)
    : (result: (UploadOutcome, seq<string>))
    ensures result.0 == NoFiles <==> files.None?
    ensures result.0 == OverLimit <==> files.Some? && |current| + |files.value| > cap
    ensures result.0 == Appended ==> result.1 == current + files.value
    ensures result.0 != Appended ==> result.1 == current
    ensures |current| <= cap ==> |result.1| <= cap
  {
    if files.None? then (NoFiles, current)
    else if |current| + |files.value| > cap then (OverLimit, current)
    else (Appended, current + files.value)
  }

  /** `prev.filter((_, i) => i !== index)`: drops the element at `index`. */
  function RemoveIndex(s: seq<string>, index: int): (r: seq<string>)
    ensures 0 <= index < |s| ==> r == s[..index] + s[index + 1..]
    ensures !(0 <= index < |s|) ==> r == s
  {
    if s == [] then []
    else if index == 0 then s[1..]
    else
      var rest := RemoveIndex(s[1..], index - 1);
      assert 0 < index < |s| ==> s[1..][..index - 1] == s[1..index] && s[1..][index..] == s[index + 1..];
      [s[0]] + rest
  }

  /** The three media lists of the form. */
  class ListingForm {
    var images: seq<string>
    var videos: seq<string>
    var audios: seq<string>

    /** No list is over its cap. */
    predicate WithinCaps()
      reads this
    {
      |images| <= MaxImages && |videos| <= MaxVideos && |audios| <= MaxAudios
    }

    constructor ()
      ensures images == [] && videos == [] && audios == []
      ensures WithinCaps()
    {
      images, videos, audios := [], [], [];
    }

    /** `handleImageUpload`: at most five images in all. */
    method HandleImageUpload(files: Option<seq<string>>) returns (outcome: UploadOutcome)
      modifies this`images
      ensures (outcome, images) == UploadBatch(old(images), files, MaxImages)
      ensures outcome != Appended ==> images == old(images)
      ensures old(WithinCaps()) ==> WithinCaps()
    {
      var result := UploadBatch(images, files, MaxImages);
      outcome := result.0;
      images := result.1;
    }

    /** `handleVideoUpload`: at most two videos in all. */
    method HandleVideoUpload(files: Option<seq<string>>) returns (outcome: UploadOutcome)
      modifies this`videos
      ensures (outcome, videos) == UploadBatch(old(videos), files, MaxVideos)
      ensures outcome != Appended ==> videos == old(videos)
      ensures old(WithinCaps()) ==> WithinCaps()
    {
      var result := UploadBatch(videos, files, MaxVideos);
      outcome := result.0;
      videos := result.1;
    }

    /** `handleAudioUpload`: at most three audio files in all. */
    method HandleAudioUpload(files: Option<seq<string>>) returns (outcome: UploadOutcome)
      modifies this`audios
      ensures (outcome, audios) == UploadBatch(old(audios), files, MaxAudios)
      ensures outcome != Appended ==> audios == old(audios)
      ensures old(WithinCaps()) ==> WithinCaps()
    {
      var result := UploadBatch(audios, files, MaxAudios);
      outcome := result.0;
      audios := result.1;
    }

    /** `removeImage`: drop the image at `index`; other indexes change nothing. */
    method RemoveImage(index: int)
      modifies this`images
      ensures images == RemoveIndex(old(images), index)
      ensures old(WithinCaps()) ==> WithinCaps()
    {
      images := RemoveIndex(images, index);
    }

    /** `removeVideo`. */
    method RemoveVideo(index: int)
      modifies this`videos
      ensures videos == RemoveIndex(old(videos), index)
      ensures old(WithinCaps()) ==> WithinCaps()
    {
      videos := RemoveIndex(videos, index);
    }

    /** `removeAudio`. */
    method RemoveAudio(index: int)
      modifies this`audios
      ensures audios == RemoveIndex(old(audios), index)
      ensures old(WithinCaps()) ==> WithinCaps()
    {
      audios := RemoveIndex(audios, index);
    }

    /** `handleSubmit`: check both gates, then build the listing and add it to
        the store exactly once. `id`, `price` and `now` stand for
        `Date.now().toString()`, `parseFloat(price)` and the creation instant. */
    method HandleSubmit(f: FormFields, store: Store, id: string, price: real, now: int)
      returns (outcome: SubmitOutcome)
      modifies store
      ensures Validate(f, images, videos, audios).Some? ==>
        outcome == Rejected(Validate(f, images, videos, audios).value) &&
        store.products == old(store.products) && store.stored == old(store.stored)
      ensures Validate(f, images, videos, audios).None? ==>
        outcome == Submitted(BuildProduct(f, images, videos, audios, id, price, now)) &&
        store.products == old(store.products) + [outcome.listing] && store.Mirrored()
    {
      var error := Validate(f, images, videos, audios);
      if error.Some? {
        return Rejected(error.value);
      }
      var product := BuildProduct(f, images, videos, audios, id, price, now);
      var added := store.AddProduct(product);
      outcome := Submitted(added);
    }
  }

  // ---------------------------------------------------------------- submission

  /** The form's text inputs and selections. */
  datatype FormFields = FormFields(
    title: string,
    description: string,
    price: string,
    category: string,
    condition: string,
    location: string,
    phone: string,
    email: string,
    preferredContactMethod: string,
    contactAvailability: string,
    sharedContactInfo: bool,
    profileUrl: string)

  /** The two toasts that stop a submission. */
  datatype SubmitError = MissingFields | MissingContact

  datatype SubmitOutcome = Rejected(error: SubmitError) | Submitted(listing: Listing)

  /** The two gates of `handleSubmit`, in order. */
  function Validate(f: FormFields, images: seq<string>, videos: seq<string>, audios: seq<string>)
    : Option<SubmitError>
  {
    if f.title == "" || f.description == "" || f.price == "" || f.category == "" ||
       (images == [] && videos == [] && audios == [])
    then Some(MissingFields)
    else if f.phone == "" && f.email == "" then Some(MissingContact)
    else None
  }

  /** `profileUrl || undefined`. */
  function OptionalText(s: string): Option<string>
  {
    if s == "" then None else Some(s)
  }

  /** The record `handleSubmit` builds. */
  function BuildProduct(f: FormFields, images: seq<string>, videos: seq<string>, audios: seq<string>,
                        id: string, price: real, now: int): Listing
  {
    Listing(id, f.title, price, f.description, f.category, images, now,
            Some(ContactInfo(Some(f.phone), Some(f.email), Some(f.preferredContactMethod),
                             Some(f.contactAvailability), Some(f.sharedContactInfo),
                             OptionalText(f.profileUrl))),
            videos, audios, Some(f.condition), Some(f.location), None, None)
  }

  /** A listing with every required text, at least one media file, and a
      way to reach the seller. */
  predicate Complete(l: Listing)
  {
    l.title != "" && l.description != "" && l.category != "" &&
    (l.images != [] || l.videos != [] || l.audios != []) &&
    l.contactInfo.Some? && (Truthy(l.contactInfo.value.phone) || Truthy(l.contactInfo.value.email))
  }

  /** The form accepts exactly when the price text is filled in and the
      listing it would build is complete. */
  lemma AcceptedIffComplete(f: FormFields, images: seq<string>, videos: seq<string>, audios: seq<string>,
                            id: string, price: real, now: int)
    ensures Validate(f, images, videos, audios).None?
        <==> f.price != "" && Complete(BuildProduct(f, images, videos, audios, id, price, now))
  {
  }

  /** The missing-fields gate is checked first: the contact toast is shown
      only for a form whose required fields and media are all present. */
  lemma ContactGateSecond(f: FormFields, images: seq<string>, videos: seq<string>, audios: seq<string>)
    ensures Validate(f, images, videos, audios) == Some(MissingContact)
        ==> f.title != "" && f.description != "" && f.price != "" && f.category != "" &&
            (images != [] || videos != [] || audios != []) && f.phone == "" && f.email == ""
  {
  }

  /** The built listing carries the form's values; an empty profile URL is
      stored as absent, and reading it back with "" as default gives the input. */
  lemma BuildProductFields(f: FormFields, images: seq<string>, videos: seq<string>, audios: seq<string>,
                           id: string, price: real, now: int)
    ensures var l := BuildProduct(f, images, videos, audios, id, price, now);
      l.id == id && l.title == f.title && l.description == f.description && l.price == price &&
      l.category == f.category && l.createdAt == now &&
      l.images == images && l.videos == videos && l.audios == audios &&
      l.condition == Some(f.condition) && l.location == Some(f.location) &&
      l.sellerType.None? && l.sellerId.None? &&
      l.contactInfo.Some? &&
      l.contactInfo.value.phone == Some(f.phone) && l.contactInfo.value.email == Some(f.email) &&
      l.contactInfo.value.preferredContactMethod == Some(f.preferredContactMethod) &&
      l.contactInfo.value.availabilityHours == Some(f.contactAvailability) &&
      l.contactInfo.value.showPublicly == Some(f.sharedContactInfo) &&
      (l.contactInfo.value.profileUrl.None? <==> f.profileUrl == "") &&
      (if l.contactInfo.value.profileUrl.Some? then l.contactInfo.value.profileUrl.value else "") == f.profileUrl
  {
  }

  // ---------------------------------------------------------------- reads in flight

  /** Upload state with the file reads made explicit: `committed` files have
      reached the list, `reading` accepted files are still being read. */
  datatype UploadState = UploadState(committed: nat, reading: nat)

  /** The handler's check as written: it counts only the committed files. */
  function StartBatchAsWritten(st: UploadState, n: nat, cap: nat): (r: (bool, UploadState))
    ensures r.0 <==> st.committed + n <= cap
  {
    if st.committed + n > cap then (false, st)
    else (true, UploadState(st.committed, st.reading + n))
  }

  /** The check with the files still being read counted. */
  function StartBatchCounted(st: UploadState, n: nat, cap: nat): (r: (bool, UploadState))
    ensures r.0 <==> st.committed + st.reading + n <= cap
    ensures st.committed + st.reading <= cap ==> r.1.committed + r.1.reading <= cap
  {
    if st.committed + st.reading + n > cap then (false, st)
    else (true, UploadState(st.committed, st.reading + n))
  }

  /** One `onload` callback appends its file to the list. */
  function ReadFinished(st: UploadState): (r: UploadState)
    requires st.reading > 0
    ensures r.committed == st.committed + 1
    ensures r.committed + r.reading == st.committed + st.reading
  {
    UploadState(st.committed + 1, st.reading - 1)
  }

  /** All outstanding reads complete. */
  function AllReadsFinished(st: UploadState): (r: UploadState)
    ensures r.reading == 0 && r.committed == st.committed + st.reading
    decreases st.reading
  {
    if st.reading == 0 then st else AllReadsFinished(ReadFinished(st))
  }

  /** As written, two batches of three images chosen before the first batch
      is read are both accepted, and the list ends with six images. */
  lemma AsWrittenExceedsImageCap()
    ensures var first := StartBatchAsWritten(UploadState(0, 0), 3, MaxImages);
            var second := StartBatchAsWritten(first.1, 3, MaxImages);
            first.0 && second.0 && AllReadsFinished(second.1).committed == 6 > MaxImages
  {
  }

  /** With reads in flight counted, no interleaving of batches and read
      completions takes a list past its cap. */
  lemma CountedKeepsCap(st: UploadState, n: nat, cap: nat)
    requires st.committed + st.reading <= cap
    ensures var r := StartBatchCounted(st, n, cap).1;
            r.committed + r.reading <= cap && AllReadsFinished(r).committed <= cap
  {
  }

  /** When no read is outstanding, the counted check decides like the atomic
      handler and leaves the same number of files once the reads finish. */
  lemma CountedMatchesAtomic(current: seq<string>, files: seq<string>, cap: nat)
    ensures var r := StartBatchCounted(UploadState(|current|, 0), |files|, cap);
            (r.0 <==> UploadBatch(current, Some(files), cap).0 == Appended) &&
            AllReadsFinished(r.1).committed == |UploadBatch(current, Some(files), cap).1|
  {
  }
}
