/** The project detail overlay: `openProjectModal` looks a project up in its
    fixed catalog and shows it, `closeModal` hides every overlay, and the
    outside-click and Escape listeners route to `closeModal`. */
module ProjectModal {
  import opened Wrappers
  import opened Dom
  import opened JsText

  /** One entry of the catalog literal; `github` and `demo` may be null. */
  datatype Project = Project(
    title: string,
    description: string,
    tech: seq<string>,
    features: seq<string>,
    github: Option<string>,
    demo: Option<string>)

  /** The catalog `openProjectModal` builds on every call. */
  const Catalog: map<string, Project> := map[
    "todo-golang" := Project(
      "Todo App with Golang",
      "RESTful API backend for todo management built with Golang, featuring CRUD operations and clean architecture",
      ["Golang", "REST API", "JSON"],
      ["CRUD Operations", "Clean Architecture", "API Endpoints", "Task Management"],
      Some("https://github.com/benjamin-1995/todo-golang"),
      None),
    "amazon-clone" := Project(
      "Amazon Clone",
      "E-commerce website clone with shopping cart functionality, product listings, and responsive design",
      ["JavaScript", "HTML5", "CSS3"],
      ["Product Listings", "Shopping Cart", "Responsive Design", "User Interface"],
      Some("https://github.com/benjamin-1995/amazon-clone"),
      None),
    "grade-calculator" := Project(
      "Student Grade Calculator",
      "Interactive React web application for GPA calculation with data visualization and progress tracking",
      ["React", "CSS3", "JavaScript"],
      ["GPA Calculation", "Data Visualization", "Progress Tracking", "Interactive UI"],
      Some("https://github.com/benjamin-1995/grade-calculator"),
      None),
    "chat-app" := Project(
      "Real-Time Chat Application",
      "Modern messaging platform with file sharing, group chats, real-time messaging using Socket.io and Node.js",
      ["React", "Socket.io", "Node.js"],
      ["Real-time Messaging", "Group Chats", "File Sharing", "User Authentication"],
      Some("https://github.com/benjamin-1995/chat-app"),
      None)
  ]

  /** The names a plain JavaScript object inherits from `Object.prototype`.
      Indexing the catalog object with one of them yields a truthy value that is
      not a project, and reading its missing `tech` list raises a TypeError. */
  const InheritedNames: set<string> := {
    "constructor", "__proto__", "hasOwnProperty", "isPrototypeOf",
    "propertyIsEnumerable", "toLocaleString", "toString", "valueOf",
    "__defineGetter__", "__defineSetter__", "__lookupGetter__", "__lookupSetter__"
  }

  /** A link button of the overlay header. */
  datatype LinkButton = ViewCode(href: string) | LiveDemo(href: string)

  /** What `#modal-body` shows: header, description, technology tags, feature
      list and link buttons, in that order. */
  datatype ModalBody = ModalBody(
    title: string,
    description: string,
    techTags: seq<string>,
    featureItems: seq<string>,
    links: seq<LinkButton>)

  /** The link buttons of the header: "View Code" before "Live Demo", each only
      when its address is truthy. */
  function LinkButtons(p: Project): (r: seq<LinkButton>)
    ensures |r| <= 2
    ensures (exists k | 0 <= k < |r| :: r[k].ViewCode?) <==> Truthy(p.github)
    ensures (exists k | 0 <= k < |r| :: r[k].LiveDemo?) <==> Truthy(p.demo)
    ensures forall k | 0 <= k < |r| :: r[k].ViewCode? ==> p.github == Some(r[k].href)
    ensures forall k | 0 <= k < |r| :: r[k].LiveDemo? ==> p.demo == Some(r[k].href)
    ensures forall i, j | 0 <= i < j < |r| :: r[i].ViewCode? && r[j].LiveDemo?
  {
    var code := if Truthy(p.github) then [ViewCode(p.github.value)] else [];
    var demo := if Truthy(p.demo) then [LiveDemo(p.demo.value)] else [];
    var r := code + demo;
    assert Truthy(p.github) ==> r[0].ViewCode?;
    assert Truthy(p.demo) ==> r[|r| - 1].LiveDemo?;
    r
  }

  /** The overlay content rendered for a project: its title, description,
      technologies as tags and features as list items, in catalog order, and
      one link button per truthy address. */
  function Render(p: Project): (b: ModalBody)
    ensures b.title == p.title && b.description == p.description
    ensures b.techTags == p.tech && b.featureItems == p.features
    ensures (exists k | 0 <= k < |b.links| :: b.links[k].ViewCode?) <==> Truthy(p.github)
    ensures (exists k | 0 <= k < |b.links| :: b.links[k].LiveDemo?) <==> Truthy(p.demo)
  {
    ModalBody(p.title, p.description, p.tech, p.features, LinkButtons(p))
  }

  /** The `body` element's inline `overflow`: never written, "hidden" while an
      overlay holds the scroll, or "auto". */
  datatype Overflow = OverflowUnset | ScrollLocked | ScrollAuto

  /** The part of the document the overlay code touches: the display of every
      `.modal` element (`projectModal` is the index of `#project-modal` among
      them), the body's overflow and the content of `#modal-body`. */
  datatype Page = Page(modals: seq<Display>, projectModal: nat, overflow: Overflow, body: Option<ModalBody>)

  /** The markup the overlay code expects: `#project-modal` is one of the
      `.modal` elements. */
  predicate HasProjectModal(p: Page) {
    p.projectModal < |p.modals|
  }

  /** How a call to `openProjectModal` ends. */
  datatype OpenOutcome = Opened | NotInCatalog | ThrowsTypeError

  /** `openProjectModal(id)`: a catalog project is rendered into the body, its
      overlay shown and the page scroll locked; any other id changes nothing. */
  function OpenProjectModal(p: Page, id: string): (r: (Page, OpenOutcome))
    requires HasProjectModal(p)
    ensures HasProjectModal(r.0) && |r.0.modals| == |p.modals|
    ensures r.0.projectModal == p.projectModal
    ensures r.1 == Opened <==> id in Catalog
    ensures id in Catalog ==> IsOpen(r.0)
    ensures id in Catalog ==> r.0.modals[p.projectModal] == Block && r.0.overflow == ScrollLocked
    ensures id in Catalog ==> r.0.body == Some(Render(Catalog[id]))
    ensures id in Catalog ==> forall k | 0 <= k < |p.modals| && k != p.projectModal :: r.0.modals[k] == p.modals[k]
    ensures id !in Catalog ==> r.0 == p
    ensures r.1 == ThrowsTypeError <==> id in InheritedNames
  {
    if id in Catalog then
      var shown := p.modals[p.projectModal := Block];
      (Page(shown, p.projectModal, ScrollLocked, Some(Render(Catalog[id]))), Opened)
    else if id in InheritedNames then
      (p, ThrowsTypeError)
    else
      (p, NotInCatalog)
  }

  /** `closeModal`: every `.modal` is hidden; the overflow is reset to "auto"
      inside the loop over them, so only when there is at least one. The body
      content is left as it was. */
  function CloseModal(p: Page): (r: Page)
    ensures |r.modals| == |p.modals| && r.projectModal == p.projectModal
    ensures forall k | 0 <= k < |r.modals| :: r.modals[k] == Hidden
    ensures |p.modals| > 0 ==> r.overflow == ScrollAuto
    ensures |p.modals| == 0 ==> r.overflow == p.overflow
    ensures r.body == p.body
  {
    Page(seq(|p.modals|, _ => Hidden), p.projectModal,
         if |p.modals| > 0 then ScrollAuto else p.overflow, p.body)
  }

  /** The window click listener; it is registered by each of the two runs of
      the page's initialisation, so one click reaches two copies. A click on the
      overlay's backdrop ends as one `closeModal`; any other click changes
      nothing. */
  function OnWindowClick(p: Page, onBackdrop: bool): (r: Page)
    ensures onBackdrop ==> r == CloseModal(p)
    ensures !onBackdrop ==> r == p
  {
    var once := if onBackdrop then CloseModal(p) else p;
    if onBackdrop then CloseModal(once) else once
  }

  /** The keydown listeners that react to Escape: one per run of the
      initialisation, and one more registered when the script loads. Escape
      ends as one `closeModal`; any other key changes nothing. */
  function OnKeyDown(p: Page, key: string): (r: Page)
    ensures key == "Escape" ==> r == CloseModal(p)
    ensures key != "Escape" ==> r == p
  {
    if key == "Escape" then CloseModal(CloseModal(CloseModal(p))) else p
  }

  /** Whether the project overlay is showing. */
  predicate IsOpen(p: Page)
    requires HasProjectModal(p)
  {
    p.modals[p.projectModal] == Block
  }

  /** The page as loaded: no overlay and no body overflow has been written. */
  function Initial(modalCount: nat, projectModal: nat): (p: Page)
    requires projectModal < modalCount
    ensures HasProjectModal(p) && !IsOpen(p) && p.overflow == OverflowUnset
  {
    Page(seq(modalCount, _ => Unstyled), projectModal, OverflowUnset, None)
  }

  /** The scroll lock is held exactly while the project overlay shows. */
  predicate LockTracksOverlay(p: Page) {
    HasProjectModal(p) && (p.overflow == ScrollLocked <==> IsOpen(p))
  }

  /** Opening and closing keep the scroll lock in step with the overlay, from the
      loaded page on. */
  lemma LockTracksOverlayPreserved(p: Page, id: string)
    requires LockTracksOverlay(p)
    ensures LockTracksOverlay(OpenProjectModal(p, id).0)
    ensures LockTracksOverlay(CloseModal(p))
    ensures LockTracksOverlay(Initial(|p.modals|, p.projectModal))
  {
  }

  /** Closing is idempotent: a second close changes nothing. */
  lemma CloseIdempotent(p: Page)
    ensures CloseModal(CloseModal(p)) == CloseModal(p)
  {
  }

  /** Once closed, the overlay is hidden and the scroll is released. */
  lemma ClosedIsReleased(p: Page)
    requires HasProjectModal(p)
    ensures !IsOpen(CloseModal(p)) && CloseModal(p).overflow == ScrollAuto
  {
  }

  /** A close on a document without any `.modal` element leaves the scroll as it
      was: the reset sits inside the per-overlay loop. */
  lemma CloseWithoutModalsKeepsOverflow(p: Page)
    requires |p.modals| == 0
    ensures CloseModal(p).overflow == p.overflow
  {
  }

  /** Opening a second project while one is shown replaces the content and keeps
      the lock: the result depends only on the last id. */
  lemma OpenReplaces(p: Page, first: string, second: string)
    requires HasProjectModal(p)
    requires first in Catalog && second in Catalog
    ensures OpenProjectModal(OpenProjectModal(p, first).0, second).0 == OpenProjectModal(p, second).0
  {
  }

  /** An id outside the catalog leaves the overlay, the lock and the content as
      they were, whether it is merely unknown or an inherited name. */
  lemma UnknownIdIsHarmless(p: Page, id: string)
    requires HasProjectModal(p) && id !in Catalog
    ensures OpenProjectModal(p, id).0 == p
    ensures IsOpen(OpenProjectModal(p, id).0) == IsOpen(p)
  {
  }

  /** The catalog has exactly the four ids the gallery's cards open. */
  lemma CatalogKeys()
    ensures Catalog.Keys == {"todo-golang", "amazon-clone", "grade-calculator", "chat-app"}
    ensures Catalog.Keys !! InheritedNames
  {
  }

  /** Every catalog project has a repository and no live demo, so its overlay
      shows one "View Code" button and no "Live Demo" button. */
  lemma CatalogLinks(id: string)
    requires id in Catalog
    ensures Render(Catalog[id]).links == [ViewCode(Catalog[id].github.value)]
  {
  }

  /** Opening `todo-golang` shows its title and its three technologies as tags. */
  lemma TodoGolangScenario(p: Page)
    requires HasProjectModal(p)
    ensures var q := OpenProjectModal(p, "todo-golang").0;
      IsOpen(q) && q.body.Some? && q.body.value.title == "Todo App with Golang"
      && q.body.value.techTags == ["Golang", "REST API", "JSON"]
  {
  }
}
