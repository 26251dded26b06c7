/** The body shared by every generator's `process_event`: fetch the first asset
    that exists, treat missing or empty bytes as a failure (`if not data`),
    transform it, treat a missing or empty result as a failure, and upload the
    result under a fixed name. */
module Pipeline {
  import opened Basics
  import opened Paths
  import opened Storage

  /** Where one event's work reads from and writes to, and how the upload is labelled. */
  datatype Job = Job(sources: seq<string>, target: string, sniff: bool)

  /** The content type the upload is given: sniffed from the bytes, or always PNG. */
  function LabelFor(job: Job, data: Bytes): string {
    if job.sniff then ContentTypeOf(data) else "image/png"
  }

  /** One event processed: the bucket after the upload, or `Raised` when any
      step failed (the script then counts an error and writes nothing). */
  function Run(b: Bucket, job: Job, transform: Bytes -> Option<Bytes>): Outcome<Bucket> {
    match FetchFirst(b, job.sources)
    case None => Raised
    case Some(data) =>
      if data == [] then Raised
      else match transform(data)
        case None => Raised
        case Some(out) => if out == [] then Raised else Upload(b, job.target, out, LabelFor(job, out))
  }

  /** A successful run read non-empty bytes from one of the sources, wrote the
      non-empty transform of exactly those bytes to the target with its label,
      and left every other object as it was. */
  lemma RunWrites(b: Bucket, job: Job, transform: Bytes -> Option<Bytes>)
    requires Run(b, job, transform).Ok?
    ensures var b' := Run(b, job, transform).value;
      && FetchFirst(b, job.sources).Some? && FetchFirst(b, job.sources).value != []
      && transform(FetchFirst(b, job.sources).value).Some?
      && var out := transform(FetchFirst(b, job.sources).value).value;
      && out != []
      && job.target !in b.faulty
      && Download(b', job.target) == Ok(out)
      && b'.contentTypes[job.target] == LabelFor(job, out)
      && (forall p :: p != job.target ==> Download(b', p) == Download(b, p) && Exists(b', p) == Exists(b, p))
  {
    var data := FetchFirst(b, job.sources).value;
    var out := transform(data).value;
    forall p | p != job.target
      ensures Download(Run(b, job, transform).value, p) == Download(b, p)
      ensures Exists(Run(b, job, transform).value, p) == Exists(b, p)
    {
      UploadThenDownload(b, job.target, out, LabelFor(job, out), p);
    }
  }

  /** A run fails without touching the bucket when nothing can be fetched, and
      when the target cannot be written. */
  lemma RunFails(b: Bucket, job: Job, transform: Bytes -> Option<Bytes>)
    ensures FetchFirst(b, job.sources).None? ==> Run(b, job, transform).Raised?
    ensures FetchFirst(b, job.sources) == Some([]) ==> Run(b, job, transform).Raised?
    ensures job.target in b.faulty ==> Run(b, job, transform).Raised?
  {
  }
}
