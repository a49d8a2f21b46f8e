/**
 * The records the dashboard reads from the API, as its response schemas describe them
 * (src/app/data-access/schemas/character.ts, src/app/data-access/schemas/location.ts).
 * The GraphQL field `type` is called `kind` here, since `type` is a Dafny keyword.
 */
module Entities {
  import opened Wrappers

  datatype LocationReference = LocationReference(id: Option<string>, name: string)

  datatype Episode = Episode(id: Option<string>, name: string, episode: string, airDate: string)

  /** One entry of the `characters.results` list. */
  datatype Character = Character(
    id: Option<string>, name: string, status: string, species: string, kind: string,
    gender: string, image: string, origin: LocationReference, location: LocationReference)

  /** The `character` object of the single-character query: a character with its episodes. */
  datatype CharacterDetail = CharacterDetail(character: Character, episodes: seq<Episode>)

  /** The optional filter of the characters query; every criterion may be absent. */
  datatype CharacterFilter = CharacterFilter(
    name: Option<string>, status: Option<string>, species: Option<string>,
    kind: Option<string>, gender: Option<string>)

  /** The variables of the single-character query. */
  datatype CharacterVariables = CharacterVariables(id: Option<string>)

  /** A resident as listed inside a location. */
  datatype Resident = Resident(id: string, name: string, image: string)

  /** One entry of the `locations.results` list. */
  datatype Location = Location(id: string, name: string, kind: string, dimension: string, residents: seq<Resident>)

  /** The optional filter of the locations query. */
  datatype LocationFilter = LocationFilter(name: Option<string>, kind: Option<string>, dimension: Option<string>)
}
