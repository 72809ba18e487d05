/** The general posting form (ContentForm.tsx): the photo picker with its
    limit of three, the tag field, the default category and the record that
    `handleSubmit` hands to the portal once the text is translated. */
module ContentForm {
  import opened Types
  import opened Text
  import opened Moderation
  import opened Translation

  /** At most this many photos per post. */
  const MaxPhotos: nat := 3

  /** What the form's fields hold when it is submitted. */
  datatype FormData = FormData(
    title: string,
    shopName: string,
    description: string,
    category: string,
    location: string,
    salary: string,
    price: string,
    area: string,
    floor: string,
    address: string,
    openHours: string,
    tags: string,
    dealType: string,
    moveInDate: string,
    startDate: string,
    endDate: string,
    phoneNumber: string,
    wechatId: string,
    isKoreanRequired: bool,
    hasDormitory: bool)

  /** `s || undefined`: an empty field is left out of the post. */
  function OrNone(s: string): Option<string> {
    if s == "" then None else Some(s)
  }

  /** Leaving an empty field out loses nothing: reading an absent field as
      empty gives back what was typed, and a present field is never empty. */
  lemma OrNoneRoundTrip(s: string)
    ensures OrNone(s).GetOr("") == s
    ensures OrNone(s) != Some("")
  {
  }

  /** `tags ? tags.split(',').map(s => s.trim()) : undefined`. */
  function Tags(text: string): (r: Option<seq<string>>)
    ensures r.None? <==> text == ""
    ensures r.Some? ==> |r.value| == |Split(text, ',')|
    ensures r.Some? ==> forall i :: 0 <= i < |r.value| ==> r.value[i] == Trim(Split(text, ',')[i])
  {
    if text == "" then None
    else
      var pieces := Split(text, ',');
      Some(seq(|pieces|, i requires 0 <= i < |pieces| => Trim(pieces[i])))
  }

  /** A tag taken from a comma-free piece is comma-free and has no
      whitespace at either end. */
  predicate CleanTag(t: string) {
    ',' !in t && (t == [] || (!IsWhitespace(t[0]) && !IsWhitespace(t[|t| - 1])))
  }

  /** Each tag is clean, and when the user typed no spaces around the
      commas, joining the tags with commas gives back what was typed. */
  lemma TagsRoundTrip(text: string)
    requires text != ""
    ensures forall i :: 0 <= i < |Tags(text).value| ==> CleanTag(Tags(text).value[i])
    ensures (forall i :: 0 <= i < |Split(text, ',')| ==> Trim(Split(text, ',')[i]) == Split(text, ',')[i])
            ==> Join(Tags(text).value, ',') == text
  {
    var pieces := Split(text, ',');
    var tags := Tags(text).value;
    forall i | 0 <= i < |tags| ensures CleanTag(tags[i]) {
      TrimmedPieceIsClean(pieces[i]);
    }
    if forall i :: 0 <= i < |pieces| ==> Trim(pieces[i]) == pieces[i] {
      assert tags == pieces;
      JoinSplit(text, ',');
    }
  }

  /** Trimming only removes characters, so a comma-free piece stays
      comma-free. */
  lemma TrimmedPieceIsClean(s: string)
    requires ',' !in s
    ensures CleanTag(Trim(s))
  {
    TrimRemovesEdgeWhitespace(s);
  }

  /** `category || (CATEGORIES[type]?.[0]?.kr || '기타')`: the chosen
      category, else the type's first label, else "기타"; never empty. */
  function DefaultCategory(chosen: string, typeLabels: seq<string>): (r: string)
    ensures r != ""
    ensures chosen != "" ==> r == chosen
    ensures chosen == "" && typeLabels != [] && typeLabels[0] != "" ==> r == typeLabels[0]
    ensures chosen == "" && (typeLabels == [] || typeLabels[0] == "") ==> r == "기타"
  {
    if chosen != "" then chosen
    else if typeLabels != [] && typeLabels[0] != "" then typeLabels[0]
    else "기타"
  }

  /** The title sent for translation: the title, or the shop name when the
      title is empty. */
  function TranslationSource(title: string, shopName: string): string {
    if title != "" then title else shopName
  }

  /** The service is sent one of the two texts the writer typed, and an
      empty title only when both the title and the shop name are empty. */
  lemma TranslationSourceIsTyped(title: string, shopName: string)
    ensures TranslationSource(title, shopName) == title || TranslationSource(title, shopName) == shopName
    ensures TranslationSource(title, shopName) == "" <==> title == "" && shopName == ""
  {
  }

  /** The photos currently attached. */
  class PhotoPicker {
    var photos: seq<string>

    ghost predicate Valid()
      reads this
    {
      |photos| <= MaxPhotos
    }

    constructor ()
      ensures Valid() && photos == []
    {
      photos := [];
    }

    /** `handleFileChange`: a selection that would take the total above
        three is refused and nothing changes; otherwise every file is
        attached after the ones already there. */
    method AddFiles(files: seq<string>) returns (accepted: bool)
      requires Valid()
      modifies this
      ensures Valid()
      ensures accepted <==> |files| + |old(photos)| <= MaxPhotos
      ensures photos == if accepted then old(photos) + files else old(photos)
    {
      accepted := |files| + |photos| <= MaxPhotos;
      if accepted {
        photos := photos + files;
      }
    }

    /** `removePhoto(index)`. */
    method RemovePhoto(index: int)
      requires Valid()
      modifies this
      ensures Valid()
      ensures photos == RemoveAt(old(photos), index)
    {
      photos := RemoveAt(photos, index);
    }
  }

  /** `s.filter((_, i) => i !== index)`: the element at `index` goes, the
      others stay in order; an index outside the list removes nothing. */
  function RemoveAt(s: seq<string>, index: int): (r: seq<string>)
    ensures 0 <= index < |s| ==> r == s[..index] + s[index + 1..]
    ensures !(0 <= index < |s|) ==> r == s
  {
    if s == [] then []
    else
      var rest := RemoveAt(s[1..], index - 1);
      if index == 0 then
        assert rest == s[1..];
        rest
      else
        assert 0 < index < |s| ==> rest == s[1..][..index - 1] + s[1..][index..];
        assert 0 < index < |s| ==> [s[0]] + s[1..][..index - 1] == s[..index];
        [s[0]] + rest
  }

  /** `newPost` in `handleSubmit`: the translated texts, the form's fields
      with empty ones left out, the photos if any, created `today` and
      expiring thirty days later, active, with no counts, comments or flags. */
  function BuildPost(form: FormData, postType: CategoryType, id: string, today: int,
                     photos: seq<string>, typeLabels: seq<string>, b: Bilingual): (p: Post)
    ensures p.id == id && p.postType == postType
    ensures p.titleKR == b.titleKR && p.titleCN == b.titleCN
    ensures p.descriptionKR == b.descKR && p.descriptionCN == b.descCN
    ensures p.status == PostStatus.Active && !p.isUrgent && !p.isAd && !p.isPremium
    ensures p.reportCount == 0 && p.likes == 0 && p.dislikes == 0 && p.views == 0
    ensures p.comments == [] && p.inquiries == None && p.premiumUntil == None
    ensures p.createdAt == today && p.expiresAt == today + 30
    ensures p.photos.None? <==> photos == []
    ensures p.tags == Tags(form.tags) && p.shopName == OrNone(form.shopName)
    ensures p.category == DefaultCategory(form.category, typeLabels)
    ensures p.phoneNumber == form.phoneNumber && p.wechatId == Some(form.wechatId)
    ensures p.location == form.location
    ensures photos != [] ==> p.photos == Some(photos)
    ensures p.details == Details(
              OrNone(form.salary), OrNone(form.price), OrNone(form.area), OrNone(form.address),
              OrNone(form.openHours), OrNone(form.dealType), None, OrNone(form.floor),
              OrNone(form.moveInDate), OrNone(form.startDate), OrNone(form.endDate), None,
              Some(form.isKoreanRequired), Some(form.hasDormitory))
  {
    Post(
      id, postType, b.titleKR, b.titleCN,
      DefaultCategory(form.category, typeLabels),
      form.location,
      OrNone(form.shopName),
      Tags(form.tags),
      if |photos| > 0 then Some(photos) else None,
      Details(
        OrNone(form.salary), OrNone(form.price), OrNone(form.area), OrNone(form.address),
        OrNone(form.openHours), OrNone(form.dealType), None, OrNone(form.floor),
        OrNone(form.moveInDate), OrNone(form.startDate), OrNone(form.endDate), None,
        Some(form.isKoreanRequired), Some(form.hasDormitory)),
      b.descKR, b.descCN,
      form.phoneNumber, Some(form.wechatId),
      today, today + 30,
      false, false, false,
      PostStatus.Active,
      0, 0, 0, 0, [], None, None)
  }

  /** `handleSubmit`: the title (or shop name) and description go to the
      service; if it fails nothing is submitted, otherwise the built post is. */
  function Submit(form: FormData, postType: CategoryType, lang: Language, id: string, today: int,
                  photos: seq<string>, typeLabels: seq<string>,
                  translate: (string, string, Language) -> Outcome): (r: Option<Post>)
    ensures translate(TranslationSource(form.title, form.shopName), form.description, lang).Failed? <==> r.None?
    ensures r.Some? ==>
              r.value == BuildPost(form, postType, id, today, photos, typeLabels,
                                   translate(TranslationSource(form.title, form.shopName), form.description, lang).fields)
  {
    match translate(TranslationSource(form.title, form.shopName), form.description, lang)
    case Failed => None
    case Translated(b) => Some(BuildPost(form, postType, id, today, photos, typeLabels, b))
  }

  /** A form-built post enters the list `active`, or `pending` exactly when
      it is a partnership proposal, and its empty comment list already meets
      the comment invariant. */
  lemma FormPostIsFresh(form: FormData, postType: CategoryType, id: string, today: int,
                        photos: seq<string>, typeLabels: seq<string>, b: Bilingual)
    ensures var p := Admit(BuildPost(form, postType, id, today, photos, typeLabels, b));
            && (p.status == Pending <==> postType == Partnership)
            && (p.status != Pending ==> p.status == PostStatus.Active)
            && WellModerated(p.comments)
  {
  }

  /** The banned-word check runs on the service's Korean output, not on what
      was typed: with the malformed-response fallback for a Chinese writer
      the Korean fields are empty, so no non-empty banned word can match. */
  lemma ChineseFallbackPassesWordCheck(form: FormData, postType: CategoryType, id: string, today: int,
                                       photos: seq<string>, typeLabels: seq<string>, words: seq<string>)
    requires forall i :: 0 <= i < |words| ==> words[i] != ""
    ensures var p := BuildPost(form, postType, id, today, photos, typeLabels,
                               Fallback(TranslationSource(form.title, form.shopName), form.description, CN));
            !CheckBannedWords(words, p.titleKR) && !CheckBannedWords(words, p.descriptionKR)
  {
    forall i | 0 <= i < |words| ensures !Contains(Lower(""), Lower(words[i])) {
      assert |Lower(words[i])| > 0;
    }
  }
}
