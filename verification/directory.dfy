/**
 * The directory's records: regions, categories, job types, listing
 * packages, deals, reviews, events, jobs and businesses.  Ratings are kept
 * in integer tenths of a star (4.7 is 47); dates are abstract integer
 * timestamps standing for `new Date(...).getTime()`.
 */
module Directory {
  import opened Wrappers

  datatype Region = SouthOC | NorthOC | Coastal | Inland

  function RegionName(r: Region): string
  {
    match r
    case SouthOC => "South OC"
    case NorthOC => "North OC"
    case Coastal => "Coastal"
    case Inland => "Inland"
  }

  datatype Category = FoodDrink | Retail | Services | HealthWellness | ArtsCulture | Technology | EventsFestivals

  /** The string value of each category. */
  function CategoryName(c: Category): string
  {
    match c
    case FoodDrink => "Food & Drink"
    case Retail => "Retail"
    case Services => "Services"
    case HealthWellness => "Health & Wellness"
    case ArtsCulture => "Arts & Culture"
    case Technology => "Technology"
    case EventsFestivals => "Events & Festivals"
  }

  /** The categories in declaration order (`Object.values(Category)`). */
  const AllCategories: seq<Category> :=
    [FoodDrink, Retail, Services, HealthWellness, ArtsCulture, Technology, EventsFestivals]

  datatype JobType = FullTime | PartTime | Contract | Intern

  function JobTypeName(t: JobType): string
  {
    match t
    case FullTime => "Full-time"
    case PartTime => "Part-time"
    case Contract => "Contract"
    case Intern => "Intern"
  }

  datatype ListingPackage = Free | Silver | Gold

  function PackageName(p: ListingPackage): string
  {
    match p
    case Free => "Free Posting"
    case Silver => "Silver Package"
    case Gold => "Gold Package"
  }

  datatype Deal = Deal(id: string, title: string, description: string, expiryDate: Option<string>)

  datatype Review = Review(id: string, userName: string, rating: nat, comment: string, timestamp: string, isVerified: bool)

  datatype Event = Event(
    id: string, title: string, description: string,
    date: int, time: string,
    location: Option<string>, price: Option<string>, imageUrl: Option<string>)

  datatype ApplicationMethod = ByEmail | ByLink

  /** A posting; an absent `isFeatured` is `None`. */
  datatype Job = Job(
    id: string, title: string, description: string, jobType: JobType,
    salary: Option<string>, postedAt: int,
    applicationMethod: Option<ApplicationMethod>, applicationValue: Option<string>,
    isFeatured: Option<bool>)

  /**
   * A listing.  The optional `reviews`, `events` and `jobs` arrays are
   * sequences, an absent array being the empty sequence (the pages read
   * them as `b.jobs || []`).
   */
  datatype Business = Business(
    id: string, name: string, category: Category, region: Region, city: string,
    description: string, address: string, phone: string, website: string, imageUrl: string,
    deal: Option<Deal>, rating: nat, reviewCount: nat,
    reviews: seq<Review>, events: seq<Event>, jobs: seq<Job>,
    package: Option<ListingPackage>)

  /** Distinct categories have distinct names. */
  lemma {:induction false} CategoryNamesDistinct(c: Category, d: Category)
    requires c != d
    ensures CategoryName(c) != CategoryName(d)
  {
  }

  /** `Object.values(Category)` lists every category once. */
  lemma {:induction false} AllCategoriesComplete(c: Category)
    ensures c in AllCategories
  {
  }
}
