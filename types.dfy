/** The two records the application passes around: a reciter variant (one
    recording edition, "moshaf", of a reciter) and a chapter (surah). */
module Types {

  /** One reciter variant as shown in the list. `suras` is the comma-separated
      list of chapter ids the variant has, `count` its declared total, and
      `rewaya` the name of its narration. */
  datatype Reciter = Reciter(
    id: string,
    name: string,
    letter: string,
    server: string,
    suras: string,
    count: string,
    rewaya: string)

  /** One entry of the bundled chapter table. */
  datatype Surah = Surah(
    id: nat,
    name: string,
    englishName: string,
    ayahCount: nat,
    revelationType: string)
}
