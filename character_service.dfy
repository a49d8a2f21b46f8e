/** The character services (src/app/data-access/services/character.ts). */
module CharacterService {
  import opened Wrappers
  import opened Pagination
  import opened Entities
  import opened Fetching
  import opened PageWalker

  const CharactersFailure: string := "Failed to fetch characters: "
  const CharacterFailure: string := "Failed to fetch character: "
  const AllCharactersFailure: string := "Failed to fetch all characters: "

  /** The client running the characters list query. */
  type CharactersQuery = Query<Variables<CharacterFilter>, RawPage<Character>>

  /** The client running the single-character query. */
  type CharacterQuery = Query<CharacterVariables, CharacterDetail>

  /**
   * `getCharacters`: one validated page of characters, or an error whose message is
   * "Failed to fetch characters: " followed by the cause's message ("Unknown error" when the
   * thrown value is not an `Error`). Calling it without variables is `Variables(None, None)`.
   */
  function GetCharacters(query: CharactersQuery, vars: Variables<CharacterFilter>): (r: Result<Page<Character>, string>)
    ensures r.Ok? <==> query(vars).Ok? && query(vars).value.Accepted?
    ensures r.Ok? ==> r.value.results == query(vars).value.body.results
    ensures r.Ok? ==> r.value.info == NormalizeInfo(query(vars).value.body.info)
    ensures query(vars).Err? ==> r == Err(CharactersFailure + Describe(query(vars).error))
    ensures query(vars).Ok? && query(vars).value.Rejected? ==> r == Err(CharactersFailure + query(vars).value.issue)
    ensures r.Err? ==> CharactersFailure <= r.error
  {
    FetchPage(CharactersFailure, query, vars)
  }

  /** `getCharacter`: one validated character with its episodes, or a "Failed to fetch character: " error. */
  function GetCharacter(query: CharacterQuery, vars: CharacterVariables): (r: Result<CharacterDetail, string>)
    ensures r.Ok? <==> query(vars).Ok? && query(vars).value.Accepted?
    ensures r.Ok? ==> r.value == query(vars).value.body
    ensures query(vars).Err? ==> r == Err(CharacterFailure + Describe(query(vars).error))
    ensures query(vars).Ok? && query(vars).value.Rejected? ==> r == Err(CharacterFailure + query(vars).value.issue)
    ensures r.Err? ==> CharacterFailure <= r.error
  {
    Guarded(CharacterFailure, query(vars))
  }

  /** `getCharacters` seen as the page fetcher of a walk. */
  function CharacterPages(query: CharactersQuery): PageFetcher<CharacterFilter, Character>
  {
    vars => GetCharacters(query, vars)
  }

  /**
   * `getAllCharacters`: every character matching `filter`, pages 1..pages in page order, or an
   * error "Failed to fetch all characters: Failed to fetch characters: ..." when any page fails.
   */
  method GetAllCharacters(query: CharactersQuery, filter: Option<CharacterFilter>)
    returns (r: Result<seq<Character>, string>, ghost requested: seq<Variables<CharacterFilter>>)
    ensures Walked(CharacterPages(query), filter, AllCharactersFailure, r)
    ensures |requested| == |RequestedPages(CharacterPages(query), filter)|
    ensures forall k :: 0 <= k < |requested| ==> requested[k] == Variables(Some(k + 1), filter)
    ensures r.Err? ==> AllCharactersFailure + CharactersFailure <= r.error
  {
    r, requested := FetchAllPages(CharacterPages(query), filter, AllCharactersFailure);
    AllOrNothing(CharacterPages(query), filter, AllCharactersFailure, r);
    if r.Err? {
      var p :| 1 <= p <= |RequestedPages(CharacterPages(query), filter)|
               && CharacterPages(query)(PageRequest(p, filter)).Err?
               && r.error == AllCharactersFailure + CharacterPages(query)(PageRequest(p, filter)).error;
      var cause := GetCharacters(query, PageRequest(p, filter)).error;
      assert CharactersFailure <= cause;
      assert r.error == AllCharactersFailure + cause;
    }
  }

  /**
   * A first page whose `info.pages` is `null` normalises to 0 pages, so the walk returns
   * exactly the first page's results.
   */
  lemma NullPagesFetchesFirstPageOnly(query: CharactersQuery, filter: Option<CharacterFilter>, raw: RawPage<Character>, r: Result<seq<Character>, string>)
    requires query(Variables(Some(1), filter)) == Ok(Accepted(raw))
    requires raw.info.pages == None
    requires Walked(CharacterPages(query), filter, AllCharactersFailure, r)
    ensures r == Ok(raw.results)
    ensures |RequestedPages(CharacterPages(query), filter)| == 1
  {
    assert CharacterPages(query)(PageRequest(1, filter)) == Ok(Validated(raw));
    SinglePageWalk(CharacterPages(query), filter, AllCharactersFailure, r);
  }
}
