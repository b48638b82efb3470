# Bill-board entry and category admin, modelled in Dafny

This project models the core of the IServ "bill board" module:

- **`Entity.Entry`**: the bulletin-board post. It is a class with the fields of the PHP entity:
  id, title, description, time, updatedAt, category, author, visible, closed, and the two owned
  ordered collections `images` and `comments`. PHP fields start as `null`. So nullable scalar
  fields are `Php.Option` values, and references to categories, users, images and comments are
  nullable class references compared by identity (PHP's `===`). Every setter, the four collection
  mutators (add and remove, for images and for comments) and both lifecycle hooks state their
  whole new state: the ghost `Snapshot` of all
  fields equals the old one with exactly the changed field replaced.
- **Timestamps**: `new \DateTime("now")` is a read of a `Php.Clock` object. Its readings never
  go backwards. `OnCreate` reads it twice, first for `time` and then for `updatedAt`, as the
  source does. `OnUpdate` touches only `updatedAt`. The predicate `Entry.Stamped` says both are
  set and `time <= updatedAt <= clock.last`; `OnCreate` establishes it and `OnUpdate` keeps it.
- **Collections**: appending is `s + [x]`. `ArrayCollection::removeElement` is
  `ArrayCollections.RemoveElement`: it drops the first element identical to `x`, keeps the rest
  in order, and changes nothing when `x` is absent. Its partners are the closed form through
  `IndexOf`, a multiset lemma, and the add-then-remove round trip in all its cases.
- **`Admin`**: the audit lines written by `CategoryAdmin`'s post-persist, post-update and
  post-remove hooks, and its route naming. The hooks are methods of `Admin.CategoryAdmin`. Each
  appends exactly one line to `logged`, which stands for the lines handed to the logger. Each
  line is built by a pure function. Its partner is a line reader: `KindOf` classifies a line by
  its ending and `TitleOf` recovers the quoted title of an added, changed or removed line. The
  lemmas prove that each hook's line is read back as its own kind, and that added, changed and
  removed lines give back their title. A rename line is read back only as a rename: nothing
  decodes its two titles. The lemmas also prove that `postUpdate` picks the rename line exactly
  when the titles are not strictly equal. Two renames whose old titles both lack a double quote
  never write the same line. When the old title contains the line's middle part, two different renames
  write the same line.

Notes on behaviour that a reader might expect to be otherwise:

- Removal could be expected to use value equality. `removeElement` searches strictly, so the
  model removes by identity.
- Adding an image and then removing it could be expected to restore the collection. It does when
  the image was not there before (`AppendThenRemove`). If it was there, the first copy is removed
  and the appended one stays at the end (`AppendThenRemovePresent`). So the collection is
  restored exactly when every element from the image's first occurrence onward is that image
  (`AppendThenRemoveRestores`); otherwise the order changes. The multiset is always restored
  (`RemoveElementMultiset`).
- `time` and `updatedAt` could be expected to hold the same instant after creation, with
  `updatedAt >= time` always. `onCreate` reads the clock twice, so the model proves only
  `time <= updatedAt`, and only for the hooks. The public setters `SetTime` and `SetUpdatedAt`
  can break the inequality.

## Model

| member | source | states |
|---|---|---|
| `Php.Clock.Now` | src/Stsbl/BillBoardBundle/Entity/Entry.php:146 | a "now" reading is never earlier than the previous one and becomes the latest reading |
| `ArrayCollections.IndexOf` | src/Stsbl/BillBoardBundle/Entity/Entry.php:470 | the strict search finds a position holding `x` with no earlier occurrence of `x` |
| `ArrayCollections.RemoveElement` | src/Stsbl/BillBoardBundle/Entity/Entry.php:470 | `removeElement` returns the collection unchanged when `x` is absent, and otherwise the collection without its first occurrence of `x`, the rest in order |
| `ArrayCollections.RemoveElementMultiset` | src/Stsbl/BillBoardBundle/Entity/Entry.php:468-471 | removal takes exactly one copy of `x` out of the multiset of elements, and the length drops by one exactly when `x` was present |
| `ArrayCollections.AppendThenRemove` | src/Stsbl/BillBoardBundle/Entity/Entry.php:456-471 | appending an absent element and removing it again restores the collection exactly |
| `ArrayCollections.AppendThenRemovePresent` | src/Stsbl/BillBoardBundle/Entity/Entry.php:456-471 | if the element was already present, appending and removing it equals removing its first copy and keeping the appended one at the end |
| `ArrayCollections.AppendThenRemoveRestores` | src/Stsbl/BillBoardBundle/Entity/Entry.php:456-471 | appending and removing an element restores the collection if and only if the element is absent or every element from its first occurrence onward is that element |
| `Entity.Entry.constructor` | src/Stsbl/BillBoardBundle/Entity/Entry.php:133-137 | a new entry has empty image and comment collections and every other field null |
| `Entity.Entry.OnCreate` | src/Stsbl/BillBoardBundle/Entity/Entry.php:144-148 | sets `time` from one clock reading and then `updatedAt` from a later one, so `time <= updatedAt`; the entry is stamped and no other field changes |
| `Entity.Entry.OnUpdate` | src/Stsbl/BillBoardBundle/Entity/Entry.php:155-158 | changes only `updatedAt`, to a fresh reading; on a stamped entry it stays stamped and `updatedAt` does not decrease |
| `Entity.Entry.UpdateLastUpdatedTime` | src/Stsbl/BillBoardBundle/Entity/Entry.php:163-166 | sets `updatedAt` to a fresh clock reading and changes no other field |
| `Entity.CreateThenUpdate` | src/Stsbl/BillBoardBundle/Entity/Entry.php:144-166 | after creation and any number of updates, `time` still equals the creation reading it returns, the entry is stamped (`time <= updatedAt`), and no field other than the timestamps changed |
| `Entity.Entry.ToString` | src/Stsbl/BillBoardBundle/Entity/Entry.php:173-176 | the string form is the title verbatim, and empty while the title is null |
| `Entity.Entry.GetId` | src/Stsbl/BillBoardBundle/Entity/Entry.php:183-186 | reads back the id |
| `Entity.Entry.GetTitle` | src/Stsbl/BillBoardBundle/Entity/Entry.php:193-196 | reads back the title |
| `Entity.Entry.GetDescription` | src/Stsbl/BillBoardBundle/Entity/Entry.php:203-206 | reads back the description |
| `Entity.Entry.GetTime` | src/Stsbl/BillBoardBundle/Entity/Entry.php:213-216 | reads back the creation time |
| `Entity.Entry.GetUpdatedAt` | src/Stsbl/BillBoardBundle/Entity/Entry.php:223-226 | reads back the last update time |
| `Entity.Entry.GetCategory` | src/Stsbl/BillBoardBundle/Entity/Entry.php:233-236 | reads back the category reference |
| `Entity.Entry.GetAuthor` | src/Stsbl/BillBoardBundle/Entity/Entry.php:243-246 | reads back the author reference, null included |
| `Entity.Entry.GetVisible` | src/Stsbl/BillBoardBundle/Entity/Entry.php:253-256 | reads back the visible flag |
| `Entity.Entry.GetImages` | src/Stsbl/BillBoardBundle/Entity/Entry.php:263-266 | reads back the images in order |
| `Entity.Entry.GetComments` | src/Stsbl/BillBoardBundle/Entity/Entry.php:273-276 | reads back the comments in order |
| `Entity.Entry.SetTitle` | src/Stsbl/BillBoardBundle/Entity/Entry.php:285-290 | assigns the title and leaves every other field unchanged |
| `Entity.Entry.SetDescription` | src/Stsbl/BillBoardBundle/Entity/Entry.php:299-304 | assigns the description and leaves every other field unchanged |
| `Entity.Entry.SetTime` | src/Stsbl/BillBoardBundle/Entity/Entry.php:313-318 | assigns the creation time (null allowed) and leaves every other field unchanged |
| `Entity.Entry.SetUpdatedAt` | src/Stsbl/BillBoardBundle/Entity/Entry.php:327-332 | assigns the update time (null allowed) and leaves every other field unchanged |
| `Entity.Entry.SetCategory` | src/Stsbl/BillBoardBundle/Entity/Entry.php:341-346 | assigns the category (null allowed) and leaves every other field unchanged |
| `Entity.Entry.SetAuthor` | src/Stsbl/BillBoardBundle/Entity/Entry.php:355-360 | assigns the author (null allowed) and leaves every other field unchanged |
| `Entity.Entry.SetVisible` | src/Stsbl/BillBoardBundle/Entity/Entry.php:369-374 | assigns the visible flag and leaves every other field unchanged |
| `Entity.Entry.SetImages` | src/Stsbl/BillBoardBundle/Entity/Entry.php:383-388 | replaces the image collection and leaves every other field unchanged |
| `Entity.Entry.SetComments` | src/Stsbl/BillBoardBundle/Entity/Entry.php:397-402 | replaces the comment collection and leaves every other field unchanged |
| `Entity.Entry.HasValidAuthor` | src/Stsbl/BillBoardBundle/Entity/Entry.php:410-413 | the author is valid if and only if the reference is not null |
| `Entity.Entry.GetAuthorDisplay` | src/Stsbl/BillBoardBundle/Entity/Entry.php:420-423 | shows the author (equal to `GetAuthor()`) exactly when it is valid, and the placeholder `?` otherwise |
| `Entity.Entry.SetClosed` | src/Stsbl/BillBoardBundle/Entity/Entry.php:432-437 | assigns the closed flag and leaves every other field unchanged |
| `Entity.Entry.GetClosed` | src/Stsbl/BillBoardBundle/Entity/Entry.php:444-447 | reads back the closed flag |
| `Entity.Entry.AddImage` | src/Stsbl/BillBoardBundle/Entity/Entry.php:456-461 | appends the image at the end of `images`; comments and all other fields unchanged |
| `Entity.Entry.RemoveImage` | src/Stsbl/BillBoardBundle/Entity/Entry.php:468-471 | `images` becomes `RemoveElement(images, image)`; comments and all other fields unchanged |
| `Entity.Entry.AddComment` | src/Stsbl/BillBoardBundle/Entity/Entry.php:480-485 | appends the comment at the end of `comments`; images and all other fields unchanged |
| `Entity.Entry.RemoveComment` | src/Stsbl/BillBoardBundle/Entity/Entry.php:492-495 | `comments` becomes `RemoveElement(comments, comment)`; images and all other fields unchanged |
| `Admin.SingleTitleLine` | modules/Stsbl/BillBoardBundle/Admin/CategoryAdmin.php:149-172 | a line of prefix, title and the added, changed or removed ending is read back as that kind and gives the title back |
| `Admin.RenameLine` | modules/Stsbl/BillBoardBundle/Admin/CategoryAdmin.php:160 | the rename line starts with the prefix, the old title and the middle part, ends with the new title and the closing quote, and has no other text, so the old title comes first |
| `Admin.RenameLineKind` | modules/Stsbl/BillBoardBundle/Admin/CategoryAdmin.php:160 | every rename line is read back as a rename and never as an added, changed or removed line |
| `Admin.PersistLine` | modules/Stsbl/BillBoardBundle/Admin/CategoryAdmin.php:146-150 | the post-persist line reads as "added" and quotes the category title (null as empty) |
| `Admin.UpdateLine` | modules/Stsbl/BillBoardBundle/Admin/CategoryAdmin.php:155-164 | the line reads as a rename if and only if the title is not strictly equal to the previous one, and as a change if and only if it is; a change line quotes the title, a rename line is old title then new title |
| `Admin.RemoveLine` | modules/Stsbl/BillBoardBundle/Admin/CategoryAdmin.php:169-173 | the post-remove line reads as "removed" and quotes the category title |
| `Admin.HookLinesDistinct` | modules/Stsbl/BillBoardBundle/Admin/CategoryAdmin.php:146-173 | no two of the three hooks ever write the same line, whatever the titles |
| `Admin.RenameLineInjective` | modules/Stsbl/BillBoardBundle/Admin/CategoryAdmin.php:160 | when neither old title has a double quote, equal rename lines have equal old and equal new titles |
| `Admin.RenameLineAmbiguous` | modules/Stsbl/BillBoardBundle/Admin/CategoryAdmin.php:160 | when an old title contains the rename line's middle part, two different title pairs write the same line |
| `Admin.RenameFromMissingTitle` | modules/Stsbl/BillBoardBundle/Admin/CategoryAdmin.php:158-160 | for every new title, a missing previous title takes the rename branch with an empty old title, even when the new title is empty too |
| `Admin.CategoryAdmin.constructor` | modules/Stsbl/BillBoardBundle/Admin/CategoryAdmin.php:49-52 | a new admin has logged nothing and keeps the route prefix its base class gives it |
| `Admin.CategoryAdmin.GetRouteIdentifier` | modules/Stsbl/BillBoardBundle/Admin/CategoryAdmin.php:80-83 | the route identifier is always `category` |
| `Admin.CategoryAdmin.GetRoutePattern` | modules/Stsbl/BillBoardBundle/Admin/CategoryAdmin.php:133-141 | the `index` action maps to the prefix followed by `categories` whatever the id; any other action gets the base class's pattern |
| `Admin.CategoryAdmin.PostPersist` | modules/Stsbl/BillBoardBundle/Admin/CategoryAdmin.php:146-150 | logs exactly one line, the added line for the title |
| `Admin.CategoryAdmin.PostUpdate` | modules/Stsbl/BillBoardBundle/Admin/CategoryAdmin.php:155-164 | logs exactly one line on every call, from whichever of the two exclusive branches applies |
| `Admin.CategoryAdmin.PostRemove` | modules/Stsbl/BillBoardBundle/Admin/CategoryAdmin.php:169-173 | logs exactly one line, the removed line for the title |

## Left out

- Wall-clock time: `new \DateTime("now")` is an integer reading of `Php.Clock`, which is assumed never to run backwards. A real clock can step back, and then `time <= updatedAt` after `onCreate` is not guaranteed.
- Doctrine mapping, persistence, id generation and when `@PrePersist`/`@PreUpdate` fire: these belong to the ORM. The model calls the hooks directly, and nothing in the entity sets `id`.
- Symfony validation constraints (`@Assert\NotBlank`, `@Assert\NotNull`): an external validator enforces them, not the entity.
- Collection identity and keys: `getImages`/`getComments` return the live `ArrayCollection` object and `setImages`/`setComments` store the caller's object, so callers can alias it. The model treats collections as values. `removeElement` also leaves a gap in the integer keys, which the model does not track, and its boolean result, which `removeImage`/`removeComment` discard.
- Fluent setters: the setters and `addImage`/`addComment` return `$this`. That return value is the receiver and is not modelled.
- Type hints on `addImage(EntryImage)` and the other typed parameters are enforced by Dafny's types rather than by a runtime error.
- Untyped setters: `setTitle`, `setDescription`, `setVisible` and `setClosed` have no type hints and accept any PHP value, and `__toString` casts whatever `title` holds. The model narrows title and description to nullable strings and the flags to nullable booleans.
- Timestamp objects: `setTime` and `setUpdatedAt` store the caller's `\DateTime` object and `getTime`/`getUpdatedAt` return it, so in PHP a caller can change either timestamp without calling an entry method. The model's timestamps are integer values, so "`time` keeps the creation reading" holds only for the model's values.
- Category, User, EntryImage and EntryComment entities: their own files are not part of this model. They are identity-only classes, and a category is represented in the admin by its title.
- `previousData`: only its `title` value is used. A null array or a missing key is read as PHP null (`None`), and non-string values are not modelled.
- PHP strings are byte strings. The model's strings are sequences of characters, so the umlauts in the log lines are single characters.
- `isAuthorized`/`isGranted`, `configure`, `prepareBreadcrumbs`, `configureListFields`, `configureShowFields`, `configureFormFields` and `_()` translation: framework configuration and foreign calls.
- The logger behind `LoggerTrait::log`: the model keeps only the sequence of lines handed to it.
- `parent::getRoutePattern` for actions other than `index`: the base class is not part of this model. It is a function parameter of `GetRoutePattern`.
- The older copy of `Entry.php` under `debian/`: a packaged snapshot. Its different `hasValidAuthor` relies on an exception thrown by a Doctrine proxy for a deleted user, which is library behaviour.
