/**
 * The eight-step "add business" wizard: package, account, identity,
 * contact, location, jobs, media and legal review.  The page's component
 * state is one immutable record; every handler is a function from the
 * record (and whatever the outside world supplies: the login status, the
 * object URL of a picked file, the outcome of an image generation, a fresh
 * job id and timestamp) to the next record.
 */
module ListingWizard {
  import opened Wrappers
  import opened Text
  import opened Directory

  const FirstStep := 1
  const MediaStep := 7
  const LastStep := 8

  const AccountError := "Please enter your account details"
  const IdentityError := "Please complete all business identity details"
  const FileError := "Please select a valid image file."
  const NoImageError := "The generation returned no image. Please refine your description."
  const KeyError := "Your API Key selection expired or is invalid. Please select a valid paid API key."
  const GenerationError := "An unexpected error occurred during generation."
  const TermsError := "Agreement to our terms is mandatory for listing."
  const MediaError := "A visual identity (AI generated or Uploaded) is required."

  datatype Account = Account(email: string, password: string)

  /** Step 3; an unselected category is `None`. */
  datatype Identity = Identity(name: string, category: Option<Category>, description: string)

  /** The job being composed on step 6. */
  datatype Draft = Draft(title: string, description: string, jobType: JobType, salary: string, isFeatured: bool)

  const EmptyDraft := Draft("", "", FullTime, "", false)

  datatype JobForm = JobForm(jobs: seq<Job>, showForm: bool, draft: Draft, appMethod: ApplicationMethod, value: string)

  /** A picked file; only its MIME type matters to the wizard. */
  datatype FileRef = FileRef(name: string, mimeType: string)

  /** Step 7: the uploaded file with its preview URL, and the generated image. */
  datatype Media = Media(image: Option<FileRef>, preview: Option<string>, aiImageUrl: Option<string>, aiPrompt: string)

  datatype Legal = Legal(certified: bool, terms: bool)

  datatype State = State(
    step: int, error: string, package: ListingPackage,
    account: Account, identity: Identity, jobForm: JobForm, media: Media, legal: Legal,
    submitted: bool)

  // ---------------------------------------------------------------- package

  /** The `id` of each plan on the pricing page, used as `?package=` in its link. */
  function PlanId(p: ListingPackage): string
  {
    match p
    case Free => "free"
    case Silver => "silver"
    case Gold => "gold"
  }

  /** The package preselected from the `package` query parameter. */
  function InitialPackage(param: Option<string>): (r: ListingPackage)
    ensures r == Silver <==> param == Some("silver")
    ensures r == Gold <==> param == Some("gold")
    ensures r == Free <==> param != Some("silver") && param != Some("gold")
  {
    if param == Some("silver") then Silver
    else if param == Some("gold") then Gold
    else Free
  }

  /** Following a plan's link from the pricing page preselects that plan. */
  lemma {:induction false} PlanLinkRoundTrip(p: ListingPackage)
    ensures InitialPackage(Some(PlanId(p))) == p
  {
  }

  // ---------------------------------------------------------------- invariants

  /**
   * A manual upload and a generated image are never both present; the
   * preview exists exactly when a file does; a stored generated URL is
   * never the empty (falsy) string.
   */
  predicate MediaOk(m: Media)
  {
    !(m.image.Some? && m.aiImageUrl.Some?)
    && (m.preview.Some? <==> m.image.Some?)
    && (m.aiImageUrl.Some? ==> m.aiImageUrl.value != "")
  }

  /** A cover picture of either kind is present. */
  predicate HasVisual(m: Media)
  {
    m.image.Some? || m.aiImageUrl.Some?
  }

  predicate StepOk(s: State)
  {
    FirstStep <= s.step <= LastStep
  }

  predicate Inv(s: State)
  {
    StepOk(s) && MediaOk(s.media)
  }

  /** The state on first render. */
  function Initial(param: Option<string>): (r: State)
    ensures Inv(r) && !HasVisual(r.media)
    ensures r.step == FirstStep && r.error == "" && !r.submitted
    ensures r.package == InitialPackage(param)
    ensures r.jobForm.jobs == []
  {
    State(FirstStep, "", InitialPackage(param),
          Account("", ""), Identity("", None, ""),
          JobForm([], false, EmptyDraft, ByEmail, ""),
          Media(None, None, None, ""), Legal(false, false),
          false)
  }

  // ---------------------------------------------------------------- navigation

  predicate IdentityComplete(id: Identity)
  {
    id.name != "" && id.category.Some? && id.description != ""
  }

  const PromptOpening := "A high-end storefront or interior for \""
  const PromptMiddle := "\", a premium "
  const PromptClosing := " business in Orange County, CA. Stunning commercial photography."

  /** The image prompt prefilled when step 3 is left with an empty prompt. */
  function DefaultPrompt(name: string, c: Category): string
  {
    PromptOpening + name + PromptMiddle + CategoryName(c) + PromptClosing
  }

  /** The prefilled prompt quotes the business name and names its category. */
  lemma {:induction false} DefaultPromptMentions(name: string, c: Category)
    ensures Contains(DefaultPrompt(name, c), name)
    ensures Contains(DefaultPrompt(name, c), CategoryName(c))
  {
    var p := DefaultPrompt(name, c);
    var i := |PromptOpening|;
    var j := |PromptOpening + name + PromptMiddle|;
    assert p[i..i + |name|] == name;
    assert OccursAt(p, name, i);
    assert p[j..j + |CategoryName(c)|] == CategoryName(c);
    assert OccursAt(p, CategoryName(c), j);
  }

  /** The result of `nextStep`: the new state, and the e-mail passed to `login` if it fired. */
  datatype Advance = Advance(state: State, login: Option<string>)

  /** The fields `nextStep` never touches. */
  predicate KeepsForm(s: State, t: State)
  {
    t.package == s.package && t.account == s.account && t.identity == s.identity
    && t.jobForm == s.jobForm && t.legal == s.legal && t.submitted == s.submitted
    && t.media.image == s.media.image && t.media.preview == s.media.preview
    && t.media.aiImageUrl == s.media.aiImageUrl
  }

  /** The guard of `nextStep` at the account and identity steps. */
  predicate Blocked(s: State, loggedIn: bool)
  {
    (s.step == 2 && !loggedIn && (s.account.email == "" || s.account.password == ""))
    || (s.step == 3 && !IdentityComplete(s.identity))
  }

  /** `nextStep`, given whether a user is logged in when it runs. */
  function NextStep(s: State, loggedIn: bool): (r: Advance)
    ensures KeepsForm(s, r.state)
    ensures Blocked(s, loggedIn) ==> r.state.step == s.step && r.state.error != "" && r.login == None
    ensures !Blocked(s, loggedIn) ==> r.state.step == s.step + 1 && r.state.error == ""
    ensures s.step == 2 && Blocked(s, loggedIn) ==> r.state.error == AccountError
    ensures s.step == 3 && Blocked(s, loggedIn) ==> r.state.error == IdentityError
    ensures r.login.Some? <==> s.step == 2 && !loggedIn && !Blocked(s, loggedIn)
    ensures r.login.Some? ==> r.login.value == s.account.email
    ensures r.state.media.aiPrompt != s.media.aiPrompt ==>
              s.step == 3 && s.media.aiPrompt == "" && r.state.step == s.step + 1
    ensures s.step == 3 && s.media.aiPrompt == "" && r.state.step == s.step + 1 ==>
              r.state.media.aiPrompt == DefaultPrompt(s.identity.name, s.identity.category.value)
  {
    if s.step == 2 && !loggedIn && (s.account.email == "" || s.account.password == "") then
      Advance(s.(error := AccountError), None)
    else
      var login := if s.step == 2 && !loggedIn then Some(s.account.email) else None;
      if s.step == 3 && !IdentityComplete(s.identity) then
        Advance(s.(error := IdentityError), login)
      else
        var prompt :=
          if s.step == 3 && s.media.aiPrompt == "" then DefaultPrompt(s.identity.name, s.identity.category.value)
          else s.media.aiPrompt;
        Advance(s.(step := s.step + 1, error := "", media := s.media.(aiPrompt := prompt)), login)
  }

  /** `prevStep`. */
  function PrevStep(s: State): (r: State)
    ensures r.step == s.step - 1
    ensures KeepsForm(s, r) && r.media == s.media && r.error == s.error
  {
    s.(step := s.step - 1)
  }

  /** Outside steps 2 and 3 `nextStep` always advances and never logs in. */
  lemma {:induction false} UnguardedStepsAdvance(s: State, loggedIn: bool)
    requires s.step != 2 && s.step != 3
    ensures NextStep(s, loggedIn).state.step == s.step + 1
    ensures NextStep(s, loggedIn).login == None
  {
  }

  /**
   * Going back undoes going forward from a clean state on any step but the
   * identity step, whose exit may prefill the prompt.
   */
  lemma {:induction false} BackUndoesContinue(s: State, loggedIn: bool)
    requires s.error == "" && s.step != 3 && !Blocked(s, loggedIn)
    ensures PrevStep(NextStep(s, loggedIn).state) == s
  {
    var t := NextStep(s, loggedIn).state;
    assert t.media == s.media;
  }

  // ---------------------------------------------------------------- jobs

  predicate DraftReady(f: JobForm)
  {
    f.draft.title != "" && f.draft.description != "" && f.value != ""
  }

  /** The job built from the draft with a fresh id and timestamp. */
  function Posted(f: JobForm, id: string, postedAt: int): Job
  {
    Job(id, f.draft.title, f.draft.description, f.draft.jobType, Some(f.draft.salary), postedAt,
        Some(f.appMethod), Some(f.value), Some(f.draft.isFeatured))
  }

  /** `addJob`; `id` and `postedAt` stand for the random id and the current time. */
  function AddJob(f: JobForm, id: string, postedAt: int): (r: JobForm)
    ensures !DraftReady(f) ==> r == f
    ensures DraftReady(f) ==>
              |r.jobs| == |f.jobs| + 1 && r.jobs[..|f.jobs|] == f.jobs
              && r.jobs[|f.jobs|].title == f.draft.title
              && r.jobs[|f.jobs|].description == f.draft.description
              && r.jobs[|f.jobs|].applicationMethod == Some(f.appMethod)
              && r.jobs[|f.jobs|].applicationValue == Some(f.value)
              && r.jobs[|f.jobs|].jobType == f.draft.jobType
              && r.jobs[|f.jobs|].salary == Some(f.draft.salary)
              && r.jobs[|f.jobs|].isFeatured == Some(f.draft.isFeatured)
              && r.jobs[|f.jobs|].id == id && r.jobs[|f.jobs|].postedAt == postedAt
              && r.draft == EmptyDraft && r.value == "" && !r.showForm && r.appMethod == f.appMethod
  {
    if !DraftReady(f) then f
    else f.(jobs := f.jobs + [Posted(f, id, postedAt)], draft := EmptyDraft, value := "", showForm := false)
  }

  /** The elements whose index is not `idx` (`filter((_, i) => i !== idx)`). */
  function RemoveAt<T>(xs: seq<T>, idx: int): (r: seq<T>)
    ensures 0 <= idx < |xs| ==> r == xs[..idx] + xs[idx + 1..]
    ensures !(0 <= idx < |xs|) ==> r == xs
  {
    if xs == [] then []
    else
      var rest := RemoveAt(xs[1..], idx - 1);
      if idx == 0 then
        assert xs[1..] == xs[..0] + xs[1..];
        rest
      else
        assert xs == [xs[0]] + xs[1..];
        [xs[0]] + rest
  }

  /** `removeJob`. */
  function RemoveJob(f: JobForm, idx: int): (r: JobForm)
    ensures 0 <= idx < |f.jobs| ==>
              |r.jobs| == |f.jobs| - 1
              && forall i :: 0 <= i < |r.jobs| ==> r.jobs[i] == f.jobs[if i < idx then i else i + 1]
    ensures !(0 <= idx < |f.jobs|) ==> r.jobs == f.jobs
    ensures r.(jobs := f.jobs) == f
  {
    f.(jobs := RemoveAt(f.jobs, idx))
  }

  /** Removing the posting just added restores the earlier list. */
  lemma {:induction false} RemoveUndoesAdd(f: JobForm, id: string, postedAt: int)
    requires DraftReady(f)
    ensures RemoveJob(AddJob(f, id, postedAt), |f.jobs|).jobs == f.jobs
  {
    var g := AddJob(f, id, postedAt);
    assert g.jobs[..|f.jobs|] == f.jobs;
  }

  // ---------------------------------------------------------------- media

  /** `handleFileSelection`; `url` stands for the object URL created for the file. */
  function SelectFile(s: State, file: FileRef, url: string): (r: State)
    ensures !StartsWith(file.mimeType, "image/") ==> r.error == FileError && r.media == s.media
    ensures StartsWith(file.mimeType, "image/") ==>
              r.error == "" && r.media.image == Some(file) && r.media.aiImageUrl == None
              && r.media.preview == Some(url)
    ensures r.media.aiPrompt == s.media.aiPrompt && r.step == s.step && r.submitted == s.submitted
    ensures MediaOk(s.media) ==> MediaOk(r.media)
    ensures r == s.(error := r.error, media := r.media)
  {
    if !StartsWith(file.mimeType, "image/") then s.(error := FileError)
    else s.(error := "", media := s.media.(image := Some(file), aiImageUrl := None, preview := Some(url)))
  }

  /** `clearManualImage`. */
  function ClearManualImage(s: State): (r: State)
    ensures r.media.image == None && r.media.preview == None
    ensures r.media.aiImageUrl == s.media.aiImageUrl && r.error == s.error && r.step == s.step
    ensures MediaOk(s.media) ==> MediaOk(r.media)
    ensures r == s.(media := r.media) && r.media.aiPrompt == s.media.aiPrompt
  {
    s.(media := s.media.(image := None, preview := None))
  }

  /**
   * What the image service did: resolved with a URL (possibly empty), or
   * threw, with or without the "Requested entity was not found" message.
   */
  datatype Generation = Returned(url: string) | Threw(entityNotFound: bool)

  /** `handleAiGenerate` once the generation has settled. */
  function AiGenerate(s: State, g: Generation): (r: State)
    ensures s.media.aiPrompt == "" ==> r == s
    ensures s.media.aiPrompt != "" && g.Returned? && g.url != "" ==>
              r.media.aiImageUrl == Some(g.url) && r.media.image == None && r.media.preview == None
              && r.error == ""
    ensures !(s.media.aiPrompt != "" && g.Returned? && g.url != "") ==> r.media == s.media
    ensures s.media.aiPrompt != "" && g == Returned("") ==> r.error == NoImageError
    ensures s.media.aiPrompt != "" && g == Threw(true) ==> r.error == KeyError
    ensures s.media.aiPrompt != "" && g == Threw(false) ==> r.error == GenerationError
    ensures r.step == s.step && r.submitted == s.submitted
    ensures MediaOk(s.media) ==> MediaOk(r.media)
    ensures r == s.(error := r.error, media := r.media) && r.media.aiPrompt == s.media.aiPrompt
  {
    if s.media.aiPrompt == "" then s
    else
      match g
      case Returned(url) =>
        if url != "" then s.(error := "", media := s.media.(aiImageUrl := Some(url), image := None, preview := None))
        else s.(error := NoImageError)
      case Threw(notFound) =>
        s.(error := if notFound then KeyError else GenerationError)
  }

  // ---------------------------------------------------------------- submit

  /** `handleSubmit`. */
  function Submit(s: State): (r: State)
    ensures r.submitted <==> s.submitted || (s.legal.certified && s.legal.terms && HasVisual(s.media))
    ensures !(s.legal.certified && s.legal.terms) ==> r.error == TermsError && r.step == s.step
    ensures s.legal.certified && s.legal.terms && !HasVisual(s.media) ==>
              r.error == MediaError && r.step == MediaStep
    ensures s.legal.certified && s.legal.terms && HasVisual(s.media) ==> r.error == s.error && r.step == s.step
    ensures r == s.(error := r.error, step := r.step, submitted := r.submitted)
  {
    if !s.legal.certified || !s.legal.terms then s.(error := TermsError)
    else if !HasVisual(s.media) then s.(error := MediaError, step := MediaStep)
    else s.(submitted := true)
  }

  /** A listing goes out with both boxes ticked and exactly one kind of cover picture. */
  lemma {:induction false} SubmittedListingComplete(s: State)
    requires MediaOk(s.media) && !s.submitted && Submit(s).submitted
    ensures s.legal.certified && s.legal.terms
    ensures s.media.image.Some? != s.media.aiImageUrl.Some?
  {
  }

  // ---------------------------------------------------------------- the page

  /** Everything the user can do on the page. */
  datatype Action =
    | Continue(loggedIn: bool)
    | Back
    | Publish
    | AddPosting(id: string, postedAt: int)
    | RemovePosting(idx: int)
    | PickFile(file: FileRef, url: string)
    | ClearFile
    | Generate(outcome: Generation)
    | ChoosePackage(p: ListingPackage)
    | EditAccount(account: Account)
    | EditIdentity(identity: Identity)
    | EditDraft(draft: Draft)
    | ChooseMethod(appMethod: ApplicationMethod)
    | EditValue(value: string)
    | ShowJobForm(show: bool)
    | EditPrompt(prompt: string)
    | EditLegal(legal: Legal)

  /** "Back" is rendered only after step 1, "Continue" only before step 8. */
  predicate Offered(s: State, a: Action)
  {
    match a
    case Continue(_) => s.step < LastStep
    case Back => s.step > FirstStep
    case _ => true
  }

  function Apply(s: State, a: Action): (r: State)
    ensures Inv(s) && Offered(s, a) ==> Inv(r)
  {
    match a
    case Continue(loggedIn) => NextStep(s, loggedIn).state
    case Back => PrevStep(s)
    case Publish => Submit(s)
    case AddPosting(id, postedAt) => s.(jobForm := AddJob(s.jobForm, id, postedAt))
    case RemovePosting(idx) => s.(jobForm := RemoveJob(s.jobForm, idx))
    case PickFile(file, url) => SelectFile(s, file, url)
    case ClearFile => ClearManualImage(s)
    case Generate(g) => AiGenerate(s, g)
    case ChoosePackage(p) => s.(package := p)
    case EditAccount(acc) => s.(account := acc)
    case EditIdentity(id) => s.(identity := id)
    case EditDraft(d) => s.(jobForm := s.jobForm.(draft := d))
    case ChooseMethod(m) => s.(jobForm := s.jobForm.(appMethod := m))
    case EditValue(v) => s.(jobForm := s.jobForm.(value := v))
    case ShowJobForm(show) => s.(jobForm := s.jobForm.(showForm := show))
    case EditPrompt(p) => s.(media := s.media.(aiPrompt := p))
    case EditLegal(l) => s.(legal := l)
  }

  function Run(s: State, actions: seq<Action>): State
    decreases |actions|
  {
    if actions == [] then s else Run(Apply(s, actions[0]), actions[1..])
  }

  /** Every action in the sequence is on screen when it is taken. */
  predicate AllOffered(s: State, actions: seq<Action>)
    decreases |actions|
  {
    actions == [] || (Offered(s, actions[0]) && AllOffered(Apply(s, actions[0]), actions[1..]))
  }

  /**
   * Whatever the user does through the page, the wizard stays within steps
   * 1..8 and never holds a manual upload and a generated image at once.
   */
  lemma {:induction false} RunKeepsInvariant(s: State, actions: seq<Action>)
    requires Inv(s) && AllOffered(s, actions)
    ensures Inv(Run(s, actions))
    decreases |actions|
  {
    if actions != [] {
      RunKeepsInvariant(Apply(s, actions[0]), actions[1..]);
    }
  }

  /** From the first render on, every reachable state keeps the invariant. */
  lemma {:induction false} ReachableStatesKeepInvariant(param: Option<string>, actions: seq<Action>)
    requires AllOffered(Initial(param), actions)
    ensures Inv(Run(Initial(param), actions))
  {
    RunKeepsInvariant(Initial(param), actions);
  }
}
