/** The records that flow through the pipeline, as declared in
    src/pipeline-task.ts and as the fetchers deliver them. */
module Records {

  /** One repository as returned by the repositories endpoint; only the two
      fields the pipeline reads are kept. */
  datatype RawRepository = RawRepository(name: string, createdAt: string)

  /** One entry of a contributors response. */
  datatype Contributor = Contributor(login: string)

  /** A normalised repository: the unit written to the journal. */
  datatype TaskTwo = TaskTwo(name: string, createdAt: string)

  /** A normalised repository with its decoded contributors list. */
  datatype TaskFour = TaskFour(name: string, createdAt: string, contributors: seq<Contributor>)

  /** The aggregated record that becomes one CSV line. */
  datatype TaskFive = TaskFive(name: string, createdAt: string, contributorsCount: nat)
}
