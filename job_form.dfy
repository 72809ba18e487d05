/** The job posting form (JobForm.tsx), used for recruitment and part-time
    posts: a narrower record than the general form, with a shorter lifetime
    for part-time posts. */
module JobForm {
  import opened Types
  import opened Moderation
  import opened Translation

  /** What the form's fields hold when it is submitted. */
  datatype JobFormData = JobFormData(
    title: string,
    description: string,
    category: string,
    location: string,
    salary: string,
    phoneNumber: string,
    wechatId: string,
    isKoreanRequired: bool,
    hasDormitory: bool)

  /** Days until a post from this form expires: 14 for part-time, 30 for
      anything else. */
  function Lifetime(postType: CategoryType): int {
    if postType == PartTime then 14 else 30
  }

  /** The chosen category, else the first label of the part-time list for a
      part-time post and of the recruitment list for any other. */
  function JobCategory(chosen: string, postType: CategoryType, partTimeFirst: string, recruitmentFirst: string): string {
    if chosen != "" then chosen
    else if postType == PartTime then partTimeFirst
    else recruitmentFirst
  }

  /** `newPost`: the translated texts, the salary kept even when empty, no
      photos, tags or shop, active with no counts, comments or flags. */
  function BuildJobPost(form: JobFormData, postType: CategoryType, id: string, today: int,
                        partTimeFirst: string, recruitmentFirst: string, b: Bilingual): (p: Post)
    ensures p.id == id && p.postType == postType
    ensures p.titleKR == b.titleKR && p.titleCN == b.titleCN
    ensures p.descriptionKR == b.descKR && p.descriptionCN == b.descCN
    ensures p.category == JobCategory(form.category, postType, partTimeFirst, recruitmentFirst)
    ensures p.details.salary == Some(form.salary)
    ensures p.photos == None && p.tags == None && p.shopName == None
    ensures p.status == PostStatus.Active && !p.isUrgent && !p.isAd && !p.isPremium
    ensures p.reportCount == 0 && p.likes == 0 && p.dislikes == 0 && p.views == 0
    ensures p.comments == [] && p.inquiries == None && p.premiumUntil == None
    ensures p.createdAt == today && p.expiresAt - p.createdAt == Lifetime(postType)
    ensures p.phoneNumber == form.phoneNumber && p.wechatId == Some(form.wechatId)
    ensures p.location == form.location
    ensures p.details == NoDetails.(salary := Some(form.salary),
                                    isKoreanRequired := Some(form.isKoreanRequired),
                                    hasDormitory := Some(form.hasDormitory))
  {
    Post(
      id, postType, b.titleKR, b.titleCN,
      JobCategory(form.category, postType, partTimeFirst, recruitmentFirst),
      form.location,
      None, None, None,
      NoDetails.(salary := Some(form.salary),
                 isKoreanRequired := Some(form.isKoreanRequired),
                 hasDormitory := Some(form.hasDormitory)),
      b.descKR, b.descCN,
      form.phoneNumber, Some(form.wechatId),
      today, today + Lifetime(postType),
      false, false, false,
      PostStatus.Active,
      0, 0, 0, 0, [], None, None)
  }

  /** `handleSubmit`: the title alone (never a shop name) and the
      description go to the service; if it fails nothing is submitted. */
  function SubmitJob(form: JobFormData, postType: CategoryType, lang: Language, id: string, today: int,
                     partTimeFirst: string, recruitmentFirst: string,
                     translate: (string, string, Language) -> Outcome): (r: Option<Post>)
    ensures translate(form.title, form.description, lang).Failed? <==> r.None?
    ensures r.Some? ==>
              r.value == BuildJobPost(form, postType, id, today, partTimeFirst, recruitmentFirst,
                                      translate(form.title, form.description, lang).fields)
  {
    match translate(form.title, form.description, lang)
    case Failed => None
    case Translated(b) => Some(BuildJobPost(form, postType, id, today, partTimeFirst, recruitmentFirst, b))
  }

  /** A job post is never held for review: it enters the list active unless
      the form was opened for a partnership post, and a part-time post
      expires sixteen days before any other posted the same day. */
  lemma JobPostIsLive(form: JobFormData, postType: CategoryType, id: string, today: int, partTimeFirst: string, recruitmentFirst: string, b: Bilingual)
    ensures var p := BuildJobPost(form, postType, id, today, partTimeFirst, recruitmentFirst, b);
            && (p.expiresAt - today == 14 <==> postType == PartTime)
            && (p.expiresAt - today == 30 <==> postType != PartTime)
    ensures Admit(BuildJobPost(form, PartTime, id, today, partTimeFirst, recruitmentFirst, b)).status == PostStatus.Active
    ensures Admit(BuildJobPost(form, Recruitment, id, today, partTimeFirst, recruitmentFirst, b)).status == PostStatus.Active
    ensures BuildJobPost(form, Recruitment, id, today, partTimeFirst, recruitmentFirst, b).expiresAt
          - BuildJobPost(form, PartTime, id, today, partTimeFirst, recruitmentFirst, b).expiresAt == 16
  {
  }

  /** The category is what the writer chose or the head of the list the form
      showed: the part-time list exactly for a part-time post. It is never
      empty when both lists start with a label. */
  lemma JobCategoryIsListed(chosen: string, postType: CategoryType, partTimeFirst: string, recruitmentFirst: string)
    ensures var r := JobCategory(chosen, postType, partTimeFirst, recruitmentFirst);
            && (r == chosen || r == partTimeFirst || r == recruitmentFirst)
            && (partTimeFirst != "" && recruitmentFirst != "" ==> r != "")
            && (chosen == "" && partTimeFirst != recruitmentFirst ==> (r == partTimeFirst <==> postType == PartTime))
  {
  }
}
