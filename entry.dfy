/** The bill-board entry entity (`Stsbl\BillBoardBundle\Entity\Entry`): a post with a title, a
    description, two timestamps, a category, an optional author, two flags and two owned, ordered
    collections (images and comments). Every field of a PHP object starts as `null`, so the
    nullable scalar fields are `Option`s and the references are nullable class references whose
    equality is PHP's strict identity `===`. */
module Entity {
  import opened Php
  import opened ArrayCollections

  /** The entities an entry refers to; only their identity matters here. */
  class Category {}
  class User {}
  class EntryImage {}
  class EntryComment {}

  /** What `getAuthorDisplay` returns: the author object, or a placeholder string. */
  datatype AuthorDisplay = ShownAuthor(user: User) | Placeholder(text: string)

  /** All fields of an entry at one moment, so that a mutator can say which one it changed. */
  datatype Snapshot = Snapshot(
    id: Option<int>,
    title: Option<string>,
    description: Option<string>,
    time: Option<int>,
    updatedAt: Option<int>,
    category: Category?,
    author: User?,
    visible: Option<bool>,
    closed: Option<bool>,
    images: seq<EntryImage>,
    comments: seq<EntryComment>)

  class Entry {
    var id: Option<int>
    var title: Option<string>
    var description: Option<string>
    var time: Option<int>
    var updatedAt: Option<int>
    var category: Category?
    var author: User?
    var visible: Option<bool>
    var closed: Option<bool>
    var images: seq<EntryImage>
    var comments: seq<EntryComment>

    ghost function State(): Snapshot
      reads this
    {
      Snapshot(id, title, description, time, updatedAt, category, author,
               visible, closed, images, comments)
    }

    /** Both timestamps are set, `time <= updatedAt`, and neither is later than the clock's
        latest reading. */
    ghost predicate Stamped(clock: Clock)
      reads this, clock
    {
      time.Some? && updatedAt.Some? && time.value <= updatedAt.value <= clock.last
    }

    /** A new entry has empty image and comment collections and every other field `null`. */
    constructor ()
      ensures State() == Snapshot(None, None, None, None, None, null, null, None, None, [], [])
    {
      id, title, description, time, updatedAt := None, None, None, None, None;
      category, author, visible, closed := null, null, None, None;
      images, comments := [], [];
    }

    /** Pre-persist hook: `time` from one clock reading, then `updatedAt` from a later one. */
    method OnCreate(clock: Clock)
      modifies this, clock
      ensures time.Some? && updatedAt.Some?
      ensures old(clock.last) <= time.value <= updatedAt.value == clock.last
      ensures Stamped(clock)
      ensures State() == old(State()).(time := time, updatedAt := updatedAt)
    {
      var now := clock.Now();
      SetTime(Some(now));
      UpdateLastUpdatedTime(clock);
    }

    /** Pre-update hook: only `updatedAt` moves, and never backwards on a stamped entry. */
    method OnUpdate(clock: Clock)
      modifies this, clock
      ensures updatedAt == Some(clock.last) && old(clock.last) <= clock.last
      ensures State() == old(State()).(updatedAt := updatedAt)
      ensures old(Stamped(clock)) ==> Stamped(clock) && old(updatedAt.value) <= updatedAt.value
    {
      UpdateLastUpdatedTime(clock);
    }

    /** Sets `updatedAt` to a fresh clock reading and changes nothing else. */
    method UpdateLastUpdatedTime(clock: Clock)
      modifies this, clock
      ensures updatedAt == Some(clock.last) && old(clock.last) <= clock.last
      ensures State() == old(State()).(updatedAt := updatedAt)
    {
      var now := clock.Now();
      SetUpdatedAt(Some(now));
    }

    /** `__toString`: the title verbatim, the empty string while it is `null`. */
    function ToString(): (s: string)
      reads this
      ensures title.Some? ==> s == title.value
      ensures title.None? ==> s == ""
    {
      StringCast(title)
    }

    function GetId(): (r: Option<int>) reads this ensures r == id { id }
    function GetTitle(): (r: Option<string>) reads this ensures r == title { title }
    function GetDescription(): (r: Option<string>) reads this ensures r == description { description }
    function GetTime(): (r: Option<int>) reads this ensures r == time { time }
    function GetUpdatedAt(): (r: Option<int>) reads this ensures r == updatedAt { updatedAt }
    function GetCategory(): (r: Category?) reads this ensures r == category { category }
    function GetAuthor(): (r: User?) reads this ensures r == author { author }
    function GetVisible(): (r: Option<bool>) reads this ensures r == visible { visible }
    function GetClosed(): (r: Option<bool>) reads this ensures r == closed { closed }
    function GetImages(): (r: seq<EntryImage>) reads this ensures r == images { images }
    function GetComments(): (r: seq<EntryComment>) reads this ensures r == comments { comments }

    method SetTitle(title: Option<string>)
      modifies this
      ensures State() == old(State()).(title := title)
    {
      this.title := title;
    }

    method SetDescription(description: Option<string>)
      modifies this
      ensures State() == old(State()).(description := description)
    {
      this.description := description;
    }

    method SetTime(time: Option<int>)
      modifies this
      ensures State() == old(State()).(time := time)
    {
      this.time := time;
    }

    method SetUpdatedAt(updatedAt: Option<int>)
      modifies this
      ensures State() == old(State()).(updatedAt := updatedAt)
    {
      this.updatedAt := updatedAt;
    }

    method SetCategory(category: Category?)
      modifies this
      ensures State() == old(State()).(category := category)
    {
      this.category := category;
    }

    method SetAuthor(author: User?)
      modifies this
      ensures State() == old(State()).(author := author)
    {
      this.author := author;
    }

    method SetVisible(visible: Option<bool>)
      modifies this
      ensures State() == old(State()).(visible := visible)
    {
      this.visible := visible;
    }

    method SetClosed(closed: Option<bool>)
      modifies this
      ensures State() == old(State()).(closed := closed)
    {
      this.closed := closed;
    }

    method SetImages(images: seq<EntryImage>)
      modifies this
      ensures State() == old(State()).(images := images)
    {
      this.images := images;
    }

    method SetComments(comments: seq<EntryComment>)
      modifies this
      ensures State() == old(State()).(comments := comments)
    {
      this.comments := comments;
    }

    /** An author is valid exactly when the reference is not `null`. */
    function HasValidAuthor(): (valid: bool)
      reads this
      ensures valid <==> author != null
    {
      author != null
    }

    /** The author when there is a valid one, the placeholder `?` otherwise; never fails. */
    function GetAuthorDisplay(): (d: AuthorDisplay)
      reads this
      ensures d.ShownAuthor? <==> HasValidAuthor()
      ensures d.ShownAuthor? ==> d.user == GetAuthor()
      ensures d.Placeholder? ==> d.text == "?"
    {
      if HasValidAuthor() then ShownAuthor(GetAuthor()) else Placeholder("?")
    }

    method AddImage(image: EntryImage)
      modifies this
      ensures State() == old(State()).(images := old(images) + [image])
    {
      images := images + [image];
    }

    method RemoveImage(image: EntryImage)
      modifies this
      ensures State() == old(State()).(images := RemoveElement(old(images), image))
    {
      images := RemoveElement(images, image);
    }

    method AddComment(comment: EntryComment)
      modifies this
      ensures State() == old(State()).(comments := old(comments) + [comment])
    {
      comments := comments + [comment];
    }

    method RemoveComment(comment: EntryComment)
      modifies this
      ensures State() == old(State()).(comments := RemoveElement(old(comments), comment))
    {
      comments := RemoveElement(comments, comment);
    }
  }

  /** However many updates follow the creation, `time` keeps the creation reading and
      `updatedAt` never drops below it: a client of the hooks' contracts alone. */
  method CreateThenUpdate(e: Entry, clock: Clock, updates: nat) returns (created: int)
    modifies e, clock
    ensures old(clock.last) <= created && e.time == Some(created)
    ensures e.Stamped(clock)
    ensures e.State() == old(e.State()).(time := e.time, updatedAt := e.updatedAt)
  {
    e.OnCreate(clock);
    created := e.time.value;
    var i := 0;
    while i < updates
      invariant i <= updates
      invariant old(clock.last) <= created && e.time == Some(created)
      invariant e.Stamped(clock)
      invariant e.State() == old(e.State()).(time := e.time, updatedAt := e.updatedAt)
    {
      e.OnUpdate(clock);
      i := i + 1;
    }
  }
}
