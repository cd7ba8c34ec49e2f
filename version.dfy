/** The version string printed by `tegofy --version`. */
module Versioning {

  /** The release number. */
  const Version: string := "0.1.2"

  /** What separates the release number from a build revision. */
  const BuildSeparator: string := ", build "

  /**
   * The version text; `revision` is the build's source revision, set at link
   * time and empty in an ordinary build.
   */
  function FmtVersion(revision: string): (r: string)
    ensures revision == "" ==> r == "0.1.2"
    ensures Version <= r
    ensures r == Version <==> revision == ""
    ensures revision != "" ==> r[|Version|..] == BuildSeparator + revision
  {
    if revision == "" then Version else Version + BuildSeparator + revision
  }

  /** The revision a version text names, or "" when it names none. */
  function RevisionOf(text: string): string
  {
    if |text| <= |Version| + |BuildSeparator| then "" else text[|Version| + |BuildSeparator|..]
  }

  /** The revision can be read back from the version text. */
  lemma RevisionRoundTrip(revision: string)
    ensures RevisionOf(FmtVersion(revision)) == revision
  {
  }
}
