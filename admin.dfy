/** The category admin of the bill board (`Stsbl\BillBoardBundle\Admin\CategoryAdmin`): the audit
    lines its post-persist, post-update and post-remove hooks write, and its route naming. A
    category is represented by its title, which may be `null`; `previousData['title']` is `None`
    when it is `null` or missing. */
module Admin {
  import opened Php

  const Prefix: string := "Kategorie \""
  const AddedSuffix: string := "\" hinzugefügt"
  const ChangedSuffix: string := "\" verändert"
  const RemovedSuffix: string := "\" gelöscht"
  const RenameInfix: string := "\" umbenannt nach \""
  const Quote: string := "\""

  predicate StartsWith(s: string, prefix: string)
  {
    |prefix| <= |s| && s[..|prefix|] == prefix
  }

  predicate EndsWith(s: string, suffix: string)
  {
    |suffix| <= |s| && s[|s| - |suffix|..] == suffix
  }

  /** The kinds of audit line about a category, read off a line by its shape. */
  datatype LineKind = Added | Renamed | Changed | Removed | Other

  /** Classifies a line by its fixed prefix and by how it ends. */
  function KindOf(line: string): LineKind
  {
    if !StartsWith(line, Prefix) then Other
    else
      var rest := line[|Prefix|..];
      if EndsWith(rest, AddedSuffix) then Added
      else if EndsWith(rest, RemovedSuffix) then Removed
      else if EndsWith(rest, ChangedSuffix) then Changed
      else if EndsWith(rest, Quote) then Renamed
      else Other
  }

  /** The one title quoted in an added, changed or removed line. */
  function TitleOf(line: string): Option<string>
  {
    match KindOf(line)
    case Added => Some(line[|Prefix|..|line| - |AddedSuffix|])
    case Changed => Some(line[|Prefix|..|line| - |ChangedSuffix|])
    case Removed => Some(line[|Prefix|..|line| - |RemovedSuffix|])
    case _ => None
  }

  /** If `s` ends with both `a` and the longer `b`, then `b` ends with `a`. */
  lemma {:induction false} SuffixOfSuffix(s: string, a: string, b: string)
    requires EndsWith(s, a) && EndsWith(s, b) && |a| <= |b|
    ensures EndsWith(b, a)
  {
    assert b[|b| - |a|..] == s[|s| - |a|..];
  }

  /** Two endings that differ in their last-but-one character cannot both end the same string. */
  lemma {:induction false} EndingsExclusive(s: string, a: string, b: string)
    requires EndsWith(s, a) && 2 <= |a| && 2 <= |b| && a[|a| - 2] != b[|b| - 2]
    ensures !EndsWith(s, b)
  {
    assert s[|s| - 2] == s[|s| - |a|..][|a| - 2] == a[|a| - 2];
  }

  /** A line made of the prefix, a title and one of the fixed endings is classified by that
      ending and gives the title back. */
  lemma {:induction false} SingleTitleLine(title: string, suffix: string)
    requires suffix in {AddedSuffix, ChangedSuffix, RemovedSuffix}
    ensures KindOf(Prefix + title + suffix) ==
      if suffix == AddedSuffix then Added else if suffix == RemovedSuffix then Removed else Changed
    ensures TitleOf(Prefix + title + suffix) == Some(title)
  {
    var line := Prefix + title + suffix;
    assert line[..|Prefix|] == Prefix;
    var rest := line[|Prefix|..];
    assert rest == title + suffix;
    assert EndsWith(rest, suffix);
    assert line[|Prefix|..|line| - |suffix|] == title;
    if suffix == RemovedSuffix {
      EndingsExclusive(rest, suffix, AddedSuffix);
    } else if suffix == ChangedSuffix {
      EndingsExclusive(rest, suffix, AddedSuffix);
      EndingsExclusive(rest, suffix, RemovedSuffix);
    }
  }

  /** The line `postUpdate` writes for a rename: the old title first, then the new one. */
  function RenameLine(oldTitle: string, newTitle: string): (line: string)
    ensures StartsWith(line, Prefix + oldTitle + RenameInfix)
    ensures EndsWith(line, newTitle + Quote)
    ensures |line| == |Prefix| + |oldTitle| + |RenameInfix| + |newTitle| + |Quote|
  {
    var line := Prefix + oldTitle + RenameInfix + newTitle + Quote;
    assert line[..|Prefix + oldTitle + RenameInfix|] == Prefix + oldTitle + RenameInfix;
    assert line[|line| - |newTitle + Quote|..] == newTitle + Quote;
    line
  }

  /** A rename line is read back as a rename, whatever the titles. */
  lemma {:induction false} RenameLineKind(oldTitle: string, newTitle: string)
    ensures KindOf(RenameLine(oldTitle, newTitle)) == Renamed
  {
    var line := RenameLine(oldTitle, newTitle);
    assert line == Prefix + oldTitle + RenameInfix + newTitle + Quote;
    assert line[..|Prefix|] == Prefix;
    var rest := line[|Prefix|..];
    assert rest == oldTitle + RenameInfix + newTitle + Quote;
    assert EndsWith(rest, Quote);
    assert !EndsWith(rest, AddedSuffix) by {
      if EndsWith(rest, AddedSuffix) { SuffixOfSuffix(rest, Quote, AddedSuffix); assert false; }
    }
    assert !EndsWith(rest, RemovedSuffix) by {
      if EndsWith(rest, RemovedSuffix) { SuffixOfSuffix(rest, Quote, RemovedSuffix); assert false; }
    }
    assert !EndsWith(rest, ChangedSuffix) by {
      if EndsWith(rest, ChangedSuffix) { SuffixOfSuffix(rest, Quote, ChangedSuffix); assert false; }
    }
  }

  /** `postPersist`'s line. */
  function PersistLine(title: Option<string>): (line: string)
    ensures KindOf(line) == Added && TitleOf(line) == Some(StringCast(title))
  {
    SingleTitleLine(StringCast(title), AddedSuffix);
    Prefix + StringCast(title) + AddedSuffix
  }

  /** `postRemove`'s line. */
  function RemoveLine(title: Option<string>): (line: string)
    ensures KindOf(line) == Removed && TitleOf(line) == Some(StringCast(title))
  {
    SingleTitleLine(StringCast(title), RemovedSuffix);
    Prefix + StringCast(title) + RemovedSuffix
  }

  /** `postUpdate`'s line: a rename exactly when the new title is not strictly equal to the
      previous one, a plain change otherwise. */
  function UpdateLine(title: Option<string>, previousTitle: Option<string>): (line: string)
    ensures KindOf(line) == Renamed <==> title != previousTitle
    ensures KindOf(line) == Changed <==> title == previousTitle
    ensures title == previousTitle ==> TitleOf(line) == Some(StringCast(title))
    ensures title != previousTitle ==>
      line == RenameLine(StringCast(previousTitle), StringCast(title))
  {
    if title != previousTitle then
      RenameLineKind(StringCast(previousTitle), StringCast(title));
      RenameLine(StringCast(previousTitle), StringCast(title))
    else
      SingleTitleLine(StringCast(title), ChangedSuffix);
      Prefix + StringCast(title) + ChangedSuffix
  }

  /** The three hooks never write the same line: an added, a removed and an updated line differ
      whatever the titles. */
  lemma {:induction false} HookLinesDistinct(a: Option<string>, b: Option<string>, c: Option<string>, d: Option<string>)
    ensures PersistLine(a) != RemoveLine(b)
    ensures PersistLine(a) != UpdateLine(c, d)
    ensures RemoveLine(b) != UpdateLine(c, d)
  {
  }

  /** When the old title holds no double quote, a rename line names both titles unambiguously. */
  lemma {:induction false} RenameLineInjective(old1: string, new1: string, old2: string, new2: string)
    requires '"' !in old1 && '"' !in old2
    requires RenameLine(old1, new1) == RenameLine(old2, new2)
    ensures old1 == old2 && new1 == new2
  {
    var line := RenameLine(old1, new1);
    assert line == Prefix + old1 + RenameInfix + new1 + Quote;
    assert line == Prefix + old2 + RenameInfix + new2 + Quote;
    assert forall k :: 0 <= k < |old1| ==> line[|Prefix| + k] == old1[k];
    assert forall k :: 0 <= k < |old2| ==> line[|Prefix| + k] == old2[k];
    assert line[|Prefix| + |old1|] == '"' && line[|Prefix| + |old2|] == '"';
    assert |old1| == |old2|;
    assert old1 == line[|Prefix|..|Prefix| + |old1|] == old2;
    var start := |Prefix| + |old1| + |RenameInfix|;
    assert new1 == line[start..|line| - 1] == new2;
  }

  /** Once an old title may hold the rename line's middle part, two different renames write
      the same line: the line does not say where the old title ends. */
  lemma {:induction false} RenameLineAmbiguous(a: string, b: string, c: string)
    ensures a + RenameInfix + b != a && RenameInfix + c != c
    ensures RenameLine(a + RenameInfix + b, c) == RenameLine(a, b + RenameInfix + c)
  {
    assert RenameLine(a + RenameInfix + b, c) == Prefix + a + RenameInfix + b + RenameInfix + c + Quote;
    assert RenameLine(a, b + RenameInfix + c) == Prefix + a + RenameInfix + b + RenameInfix + c + Quote;
  }

  /** With `previousData` missing its title, every titled category takes the rename branch, with
      an empty old title; for an empty new title the line reports a rename from "" to "". */
  lemma {:induction false} RenameFromMissingTitle(t: string)
    ensures KindOf(UpdateLine(Some(t), None)) == Renamed
    ensures UpdateLine(Some(t), None) == RenameLine("", t)
  {
  }

  /** The admin object, reduced to what its hooks and routes use: the route prefix its base
      class provides and the lines it has handed to the logger, oldest first. */
  class CategoryAdmin {
    const routesPrefix: string
    var logged: seq<string>

    constructor (routesPrefix: string)
      ensures this.routesPrefix == routesPrefix && logged == []
    {
      this.routesPrefix := routesPrefix;
      logged := [];
    }

    /** `billboard/manage/category` rather than the default identifier. */
    function GetRouteIdentifier(): (r: string)
      ensures r == "category"
    {
      "category"
    }

    /** The list route is the plural `categories` under the prefix, whatever the id; every other
        action is left to the base class, given here as `parent`. */
    function GetRoutePattern<Id>(action: string, id: Id, entityBased: bool,
                                 parent: (string, Id, bool) -> string): (pattern: string)
      ensures action == "index" ==> pattern == routesPrefix + "categories"
      ensures action != "index" ==> pattern == parent(action, id, entityBased)
    {
      if action == "index" then routesPrefix + "categories" else parent(action, id, entityBased)
    }

    method PostPersist(title: Option<string>)
      modifies this
      ensures logged == old(logged) + [PersistLine(title)]
    {
      logged := logged + [PersistLine(title)];
    }

    /** Exactly one line per call, from whichever of the two branches applies. */
    method PostUpdate(title: Option<string>, previousTitle: Option<string>)
      modifies this
      ensures logged == old(logged) + [UpdateLine(title, previousTitle)]
    {
      logged := logged + [UpdateLine(title, previousTitle)];
    }

    method PostRemove(title: Option<string>)
      modifies this
      ensures logged == old(logged) + [RemoveLine(title)]
    {
      logged := logged + [RemoveLine(title)];
    }
  }
}
