/** The records exchanged between the extractor's components
    (src/types/linkedin.ts). */
module Types {

  /** One synthetic profile record. */
  datatype LinkedInProfile = LinkedInProfile(
    id: string,
    name: string,
    title: string,
    skills: seq<string>,
    url: string,
    avatar: string)

  /** What the progress overlay shows while a batch runs. */
  datatype ScrapingProgress = ScrapingProgress(
    currentProfile: string,
    profilesCompleted: int,
    totalProfiles: int)
}
