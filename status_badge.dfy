/** The status badge of a content item (components/upload/StatusBadge.tsx):
    a fixed table from status to label, colour classes and spinner, looked up
    with a fallback, and a tooltip that shows the error of a failed item. */
module StatusBadge {
  import opened Externals
  import opened Content
  import ContentItems

  /** An entry of the table; `color` is its class string, split into classes. */
  datatype BadgeConfig = BadgeConfig(caption: string, color: seq<string>, isLoading: bool)

  const GRAY: seq<string> := ["bg-gray-100", "text-gray-700", "dark:bg-gray-800", "dark:text-gray-300"]
  const BLUE: seq<string> := ["bg-blue-100", "text-blue-700", "dark:bg-blue-900", "dark:text-blue-300"]
  const PURPLE: seq<string> := ["bg-purple-100", "text-purple-700", "dark:bg-purple-900", "dark:text-purple-300"]
  const INDIGO: seq<string> := ["bg-indigo-100", "text-indigo-700", "dark:bg-indigo-900", "dark:text-indigo-300"]
  const GREEN: seq<string> := ["bg-green-100", "text-green-700", "dark:bg-green-900", "dark:text-green-300"]
  const RED: seq<string> := ["bg-red-100", "text-red-700", "dark:bg-red-900", "dark:text-red-300"]

  /** `statusConfig`, one entry per status. */
  function StatusConfig(st: ContentStatus): BadgeConfig {
    match st
    case Pending => BadgeConfig("Pending", GRAY, false)
    case Uploading => BadgeConfig("Uploading...", BLUE, true)
    case Processing => BadgeConfig("Processing...", BLUE, true)
    case Transcribing => BadgeConfig("Transcribing...", BLUE, true)
    case Extracting => BadgeConfig("Extracting...", BLUE, true)
    case TextExtracted => BadgeConfig("Text Extracted", BLUE, false)
    case Parsing => BadgeConfig("Analyzing...", PURPLE, true)
    case Parsed => BadgeConfig("Analyzed", PURPLE, false)
    case Indexing => BadgeConfig("Indexing...", INDIGO, true)
    case Ready => BadgeConfig("Ready", GREEN, false)
    case Failed => BadgeConfig("Failed", RED, false)
  }

  /** `statusConfig[status] || statusConfig.pending` for the status string the
      badge is given. */
  function ConfigFor(status: string): BadgeConfig {
    match ParseStatus(status)
    case Some(st) => StatusConfig(st)
    case None => StatusConfig(Pending)
  }

  /** The status a label belongs to: the table's labels read backwards. */
  function StatusOfLabel(caption: string): (r: Option<ContentStatus>)
    ensures r.Some? ==> StatusConfig(r.value).caption == caption
  {
    if caption == "Pending" then Some(Pending)
    else if caption == "Uploading..." then Some(Uploading)
    else if caption == "Processing..." then Some(Processing)
    else if caption == "Transcribing..." then Some(Transcribing)
    else if caption == "Extracting..." then Some(Extracting)
    else if caption == "Text Extracted" then Some(TextExtracted)
    else if caption == "Analyzing..." then Some(Parsing)
    else if caption == "Analyzed" then Some(Parsed)
    else if caption == "Indexing..." then Some(Indexing)
    else if caption == "Ready" then Some(Ready)
    else if caption == "Failed" then Some(Failed)
    else None
  }

  /** The rendered badge: its text, the span's classes (what `cn` joins), its
      tooltip and whether the spinner is drawn. */
  datatype Badge = Badge(caption: string, classes: seq<string>, title: Option<string>, spinner: bool)

  const BASE_CLASSES: seq<string> :=
    ["inline-flex", "items-center", "gap-1.5", "rounded-full", "px-2.5", "py-0.5", "text-xs", "font-medium"]

  /** `StatusBadge({ status, errorMessage })`; an absent or null error message
      is None. */
  function RenderBadge(status: string, errorMessage: Option<string>): Badge {
    var config := ConfigFor(status);
    Badge(
      config.caption,
      BASE_CLASSES + config.color,
      if status == "failed" && errorMessage.Some? && errorMessage.value != "" then errorMessage else None,
      config.isLoading)
  }

  // ---------------------------------------------------------------------------
  // Properties of the table
  // ---------------------------------------------------------------------------

  /** Every status has its own entry, and a string naming no status gets the
      `pending` entry. */
  lemma LookupTotal(status: string, st: ContentStatus)
    ensures ConfigFor(StatusName(st)) == StatusConfig(st)
    ensures ParseStatus(status).None? ==> ConfigFor(status) == StatusConfig(Pending)
  {
    StatusNameRoundTrip(st);
  }

  /** No two statuses share a label, so the label identifies the status. */
  lemma LabelsIdentifyStatus(a: ContentStatus, b: ContentStatus)
    ensures StatusOfLabel(StatusConfig(a).caption) == Some(a)
    ensures StatusConfig(a).caption == StatusConfig(b).caption ==> a == b
  {
    assert StatusOfLabel(StatusConfig(b).caption) == Some(b);
  }

  /** The spinner is drawn exactly when the entry is loading, which is the case
      for six statuses. */
  lemma SpinnerExactly(st: ContentStatus, errorMessage: Option<string>)
    ensures RenderBadge(StatusName(st), errorMessage).spinner == StatusConfig(st).isLoading
    ensures StatusConfig(st).isLoading <==> st in {Uploading, Processing, Transcribing, Extracting, Parsing, Indexing}
  {
    StatusNameRoundTrip(st);
  }

  /** The tooltip is the error message exactly when the status is `failed`
      and the message is not empty; otherwise there is none. */
  lemma TitleRule(status: string, errorMessage: Option<string>)
    ensures RenderBadge(status, errorMessage).title.Some? <==>
      status == StatusName(Failed) && errorMessage.Some? && errorMessage.value != ""
    ensures RenderBadge(status, errorMessage).title.Some? ==>
      RenderBadge(status, errorMessage).title == errorMessage
  {
  }

  /** The badge's cases from the component tests. */
  lemma BadgeExamples()
    ensures RenderBadge("ready", None).caption == "Ready"
    ensures "bg-green-100" in RenderBadge("ready", None).classes
    ensures RenderBadge("failed", Some("Test error")).caption == "Failed"
    ensures "bg-red-100" in RenderBadge("failed", Some("Test error")).classes
    ensures RenderBadge("failed", Some("Test error")).title == Some("Test error")
    ensures RenderBadge("transcribing", None).caption == "Transcribing..." && RenderBadge("transcribing", None).spinner
    ensures RenderBadge("indexing", None).caption == "Indexing..." && RenderBadge("indexing", None).spinner
    ensures RenderBadge("parsing", None).caption == "Analyzing..."
  {
    StatusNameRoundTrip(Ready);
    StatusNameRoundTrip(Failed);
    StatusNameRoundTrip(Transcribing);
    StatusNameRoundTrip(Indexing);
    StatusNameRoundTrip(Parsing);
    assert RenderBadge("ready", None).classes[|BASE_CLASSES|] == "bg-green-100";
    assert RenderBadge("failed", Some("Test error")).classes[|BASE_CLASSES|] == "bg-red-100";
  }

  /** A badge with a spinner belongs to an item that keeps the list polling;
      the converse fails for `pending`, which polls without a spinner. */
  lemma LoadingIsInFlight(st: ContentStatus)
    ensures StatusConfig(st).isLoading ==> ContentItems.InFlight(Str(StatusName(st)))
    ensures ContentItems.InFlight(Str(StatusName(Pending))) && !StatusConfig(Pending).isLoading
  {
    ContentItems.InFlightExactly(st);
    ContentItems.InFlightExactly(Pending);
  }
}
