/** The downloaded-file row every stage of the pipeline works on. */
module Files {
  import opened Common
  import opened Staging

  datatype FileStatus =
    | Discovered | Downloading | Downloaded | Unmatched | Matched | Routing | Routed
    | Error | Pending | Seeded | Ignored | Missing

  datatype IgnoredReason = NoscanPath | Manual

  type Crc = string

  /** What `error_message` says. */
  datatype Problem =
    | CrcMismatch(expected: Crc, got: Crc)
    | Interrupted
    | TransferFailed(text: string)
    | ParseFailed
    | LowConfidence
    | UnmappedArc(arc: string)
    | NoShow(name: Option<string>)
    | NoEpisode(season: Option<int>, episode: Option<int>)

  datatype MatchedBy = ByLlm | ByHeuristic

  /** The columns the download stage owns. */
  datatype Transferred = Transferred(
    localPath: Option<Path>,
    size: nat,
    sha256: Option<string>,
    crcComputed: Option<Crc>,
    crcExtracted: Option<Crc>)

  /** The columns the parse stage owns. */
  datatype Match = Match(
    showId: Option<nat>,
    episodeId: Option<nat>,
    matchedBy: Option<MatchedBy>,
    parsedSeason: Option<int>,
    parsedEpisode: Option<int>)

  /** One row. `declaredCrc` is what `extract_crc32` reads from the file name. */
  datatype Row = Row(
    remotePath: string,
    declaredCrc: Option<Crc>,
    ignoredReason: Option<IgnoredReason>,
    status: FileStatus,
    problem: Option<Problem>,
    transferred: Transferred,
    parsed: Match,
    updatedAt: int)

  /** The rows of the table, by id: what a session holds and what the database holds. */
  type Table = map<nat, Row>
}
