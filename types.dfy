/** The record types of the portal: posts with their embedded comments and
    inquiries, and blacklist entries. Dates are integer day numbers. */
module Types {

  datatype Option<T> = None | Some(value: T) {
    function GetOr(default: T): T {
      match this
      case Some(v) => v
      case None => default
    }
  }

  /** The viewer's language. */
  datatype Language = KR | CN

  /** The nine listing categories. */
  datatype CategoryType =
    | Recruitment
    | Resume
    | PartTime
    | Business
    | Promo
    | RealEstate
    | CommunityPhoto
    | CommunityUsed
    | Partnership

  const AllCategories: seq<CategoryType> :=
    [Recruitment, Resume, PartTime, Business, Promo, RealEstate, CommunityPhoto, CommunityUsed, Partnership]

  /** AllCategories lists every category exactly once, so there are nine. */
  lemma CategoriesAreNine()
    ensures |AllCategories| == 9
    ensures forall c: CategoryType :: c in AllCategories
    ensures forall i, j :: 0 <= i < j < |AllCategories| ==> AllCategories[i] != AllCategories[j]
  {
    forall c: CategoryType ensures c in AllCategories {
      match c
      case Recruitment => assert AllCategories[0] == c;
      case Resume => assert AllCategories[1] == c;
      case PartTime => assert AllCategories[2] == c;
      case Business => assert AllCategories[3] == c;
      case Promo => assert AllCategories[4] == c;
      case RealEstate => assert AllCategories[5] == c;
      case CommunityPhoto => assert AllCategories[6] == c;
      case CommunityUsed => assert AllCategories[7] == c;
      case Partnership => assert AllCategories[8] == c;
    }
  }

  /** A comment is either shown ('active') or auto-hidden ('hidden'). */
  datatype CommentStatus = Active | Hidden

  /** The six post statuses; 'hidden' is not one of them. */
  datatype PostStatus = Active | Reported | Deleted | Banned | Pending | Rejected

  datatype Comment = Comment(
    id: string,
    nickname: string,
    content: string,
    likes: nat,
    reportCount: nat,
    status: CommentStatus,
    createdAt: int)

  datatype InquiryMessage = InquiryMessage(
    id: string,
    senderName: string,
    message: string,
    createdAt: int)

  /** The category-specific optional attributes of a post. */
  datatype Details = Details(
    salary: Option<string>,
    price: Option<string>,
    area: Option<string>,
    address: Option<string>,
    openHours: Option<string>,
    dealType: Option<string>,
    estateType: Option<string>,
    floor: Option<string>,
    moveInDate: Option<string>,
    startDate: Option<string>,
    endDate: Option<string>,
    promoType: Option<string>,
    isKoreanRequired: Option<bool>,
    hasDormitory: Option<bool>)

  const NoDetails: Details :=
    Details(None, None, None, None, None, None, None, None, None, None, None, None, None, None)

  /** A listing. `postType` is the source's `type`, `category` its free-form label. */
  datatype Post = Post(
    id: string,
    postType: CategoryType,
    titleKR: string,
    titleCN: string,
    category: string,
    location: string,
    shopName: Option<string>,
    tags: Option<seq<string>>,
    photos: Option<seq<string>>,
    details: Details,
    descriptionKR: string,
    descriptionCN: string,
    phoneNumber: string,
    wechatId: Option<string>,
    createdAt: int,
    expiresAt: int,
    isUrgent: bool,
    isPremium: bool,
    isAd: bool,
    status: PostStatus,
    reportCount: nat,
    likes: nat,
    dislikes: nat,
    views: nat,
    comments: seq<Comment>,
    inquiries: Option<seq<InquiryMessage>>,
    premiumUntil: Option<int>)

  datatype BlockType = Phone | Ip

  /** A blocked value; `expiresAt` is stored but never consulted. */
  datatype BlacklistItem = BlacklistItem(
    id: string,
    blockType: BlockType,
    value: string,
    reason: string,
    createdAt: int,
    expiresAt: Option<int>)
}
