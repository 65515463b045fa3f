/** The configuration of a server: a repository of templates, which of them are
    refused, and which one applies to a resource. */
module Configuration {
  import opened Resources

  /** A template with the glob that says which resources it is for. */
  datatype Entry = Entry(glob: string, template: Template)

  type Repository = seq<Entry>

  /** How Go matches paths. A pattern may be malformed, and a star stops at a
      slash; nothing else of the syntax matters here. */
  datatype Matcher = Matcher(wellFormed: string -> bool, matches: (string, string) -> bool)

  ghost predicate PathMatcher(matcher: Matcher) {
    forall id :: matcher.matches("*", id) <==> '/' !in id
  }

  datatype Error =
    | MalformedGlob
    | RefreshIntervalTooShort
    | LeaseTooShort
    | LeaseShorterThanInterval
    | StarNotLast
    | NoStar

  /** What is wrong with an entry, in the order in which it is checked. */
  function EntryError(matcher: Matcher, entry: Entry, last: bool): Option<Error> {
    var algorithm := entry.template.algorithm;
    if !matcher.wellFormed(entry.glob) then Some(MalformedGlob)
    else if algorithm.refreshInterval < 1 then Some(RefreshIntervalTooShort)
    else if algorithm.leaseLength < 1 then Some(LeaseTooShort)
    else if algorithm.leaseLength < algorithm.refreshInterval then Some(LeaseShorterThanInterval)
    else if entry.glob == "*" && !last then Some(StarNotLast)
    else None
  }

  /** Every glob is well formed, every lease lasts for a refresh interval of at
      least a second, and there is one entry for the star: the last one. */
  predicate ValidRepository(matcher: Matcher, repository: Repository) {
    && (forall entry | entry in repository ::
          && matcher.wellFormed(entry.glob)
          && 1 <= entry.template.algorithm.refreshInterval <= entry.template.algorithm.leaseLength)
    && repository != [] && repository[|repository| - 1].glob == "*"
    && (forall i | 0 <= i < |repository| - 1 :: repository[i].glob != "*")
  }

  /** The first entry in error decides, and a missing star comes last. */
  method Validate(matcher: Matcher, repository: Repository) returns (error: Option<Error>)
    ensures error == None <==> ValidRepository(matcher, repository)
    ensures error.Some? ==>
            || (error == Some(NoStar) && (forall entry | entry in repository :: entry.glob != "*"))
            || exists i | 0 <= i < |repository| ::
                 && EntryError(matcher, repository[i], i + 1 == |repository|) == error
                 && forall j | 0 <= j < i :: EntryError(matcher, repository[j], false) == None
  {
    var starFound := false;
    for i := 0 to |repository|
      invariant starFound <==> exists entry :: entry in repository[..i] && entry.glob == "*"
      invariant starFound ==> i == |repository| && repository[i - 1].glob == "*"
      invariant forall j | 0 <= j < i :: EntryError(matcher, repository[j], j + 1 == |repository|) == None
    {
      error := EntryError(matcher, repository[i], i + 1 == |repository|);
      if error.Some? {
        return;
      }
      assert repository[..i + 1] == repository[..i] + [repository[i]];
      if repository[i].glob == "*" {
        assert repository[i] in repository[..i + 1];
        starFound := true;
      }
    }
    assert repository[..|repository|] == repository;
    error := if starFound then None else Some(NoStar);
  }

  // ---- Which template applies ----

  /** The first entry whose glob is the name itself. */
  predicate IsLiteral(repository: Repository, id: string, i: int) {
    0 <= i < |repository| && repository[i].glob == id && forall j | 0 <= j < i :: repository[j].glob != id
  }

  /** The first entry whose glob matches, if none is the name itself. */
  predicate IsMatch(matcher: Matcher, repository: Repository, id: string, i: int) {
    && 0 <= i < |repository| && matcher.matches(repository[i].glob, id)
    && (forall entry | entry in repository :: entry.glob != id)
    && (forall j | 0 <= j < i :: !matcher.matches(repository[j].glob, id))
  }

  predicate Applies(matcher: Matcher, repository: Repository, id: string, i: int) {
    IsLiteral(repository, id, i) || IsMatch(matcher, repository, id, i)
  }

  /** No entry applies, which makes the server panic. */
  predicate NoneApplies(matcher: Matcher, repository: Repository, id: string) {
    forall entry | entry in repository :: entry.glob != id && !matcher.matches(entry.glob, id)
  }

  lemma AppliesOnce(matcher: Matcher, repository: Repository, id: string, i: int, j: int)
    requires Applies(matcher, repository, id, i) && Applies(matcher, repository, id, j)
    ensures i == j && !NoneApplies(matcher, repository, id)
  {
    assert repository[i] in repository && repository[j] in repository;
  }

  lemma {:induction false} SomeApplies(matcher: Matcher, repository: Repository, id: string)
    requires !NoneApplies(matcher, repository, id)
    ensures exists i :: Applies(matcher, repository, id, i)
    decreases |repository|
  {
    var init, last := repository[..|repository| - 1], repository[|repository| - 1];
    assert repository == init + [last];
    if !NoneApplies(matcher, init, id) {
      SomeApplies(matcher, init, id);
      var i :| Applies(matcher, init, id, i);
      assert repository[i] == init[i];
      if IsLiteral(init, id, i) || last.glob != id {
        assert Applies(matcher, repository, id, i);
      } else {
        assert forall j | 0 <= j < |init| :: repository[j] == init[j] && init[j] in init;
        assert Applies(matcher, repository, id, |repository| - 1);
      }
    } else {
      assert forall j | 0 <= j < |repository| - 1 :: repository[j] in init;
      assert Applies(matcher, repository, id, |repository| - 1);
    }
  }

  /** The template for a resource, as a function of its name. */
  ghost function TemplateFor(matcher: Matcher, repository: Repository, id: string): (t: Option<Template>)
    ensures t == None <==> NoneApplies(matcher, repository, id)
    ensures forall i | Applies(matcher, repository, id, i) :: t == Some(repository[i].template)
  {
    if NoneApplies(matcher, repository, id) then None else
      SomeApplies(matcher, repository, id);
      var i :| Applies(matcher, repository, id, i);
      assert forall j | Applies(matcher, repository, id, j) :: j == i by {
        forall j | Applies(matcher, repository, id, j) ensures j == i { AppliesOnce(matcher, repository, id, i, j); }
      }
      Some(repository[i].template)
  }

  /** Tries the names first and then the patterns, each from the front. */
  method FindConfig(matcher: Matcher, repository: Repository, id: string) returns (template: Option<Template>)
    ensures template == TemplateFor(matcher, repository, id)
  {
    for i := 0 to |repository|
      invariant forall j | 0 <= j < i :: repository[j].glob != id
    {
      if repository[i].glob == id {
        assert Applies(matcher, repository, id, i);
        return Some(repository[i].template);
      }
    }
    for i := 0 to |repository|
      invariant forall j | 0 <= j < i :: !matcher.matches(repository[j].glob, id)
    {
      if matcher.matches(repository[i].glob, id) {
        assert Applies(matcher, repository, id, i);
        return Some(repository[i].template);
      }
    }
    template := None;
  }

  /** The star does not catch everything: a valid repository has no template for
      a name exactly when the name has a slash and no other entry applies. */
  lemma MissingExactlyWhen(matcher: Matcher, repository: Repository, id: string)
    requires PathMatcher(matcher) && ValidRepository(matcher, repository)
    ensures TemplateFor(matcher, repository, id) == None <==>
            '/' in id && NoneApplies(matcher, repository[..|repository| - 1], id)
  {
    assert repository == repository[..|repository| - 1] + [repository[|repository| - 1]];
    assert matcher.matches("*", id) <==> '/' !in id;
  }

  /** Where the star applies, it is the last resort. */
  lemma StarIsLastResort(matcher: Matcher, repository: Repository, id: string)
    requires PathMatcher(matcher) && ValidRepository(matcher, repository) && '/' !in id && id != "*"
    ensures Applies(matcher, repository, id, |repository| - 1) <==>
            NoneApplies(matcher, repository[..|repository| - 1], id)
  {
    assert repository == repository[..|repository| - 1] + [repository[|repository| - 1]];
    assert matcher.matches("*", id);
  }

  /** With nothing but the star, a name with a slash makes the server panic. */
  lemma SlashFindsNothing(matcher: Matcher, template: Template)
    requires PathMatcher(matcher) && matcher.wellFormed("*")
    requires 1 <= template.algorithm.refreshInterval <= template.algorithm.leaseLength
    ensures ValidRepository(matcher, [Entry("*", template)])
    ensures TemplateFor(matcher, [Entry("*", template)], "cell/cpu") == None
  {
    var id := "cell/cpu";
    assert id[4] == '/';
    MissingExactlyWhen(matcher, [Entry("*", template)], id);
  }
}
