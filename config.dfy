/** The repository layout the application is configured with. */
module Config {
  /** The branch documentation is published into. */
  const Branch := "main"

  /** Where the release notes live. */
  const ReleaseNotesPath := "docs/release-notes/"

  /** Where the tech-stack JSON files live. */
  const TechStackPath := "data/tech-stack-data"
}
