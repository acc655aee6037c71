/** Deployment submission (`DeployEndpointHandler`): the request body's "Product" must be
    a JSON string; a valid request adds one new `DeployJob` for that product to the shared
    job bag and answers with the job's id. The body is the deserialized
    `Dictionary<string, object>`: JSON null members deserialize to null and are absent
    here, every other member keeps its JSON kind. */
module DeployEndpoint {
  import opened Common

  const ProductKey := "Product"
  const ProductRequired := "Product is required"

  /** A `JsonElement`, reduced to what the handler asks of it: its text when its
      `ValueKind` is String, and only that it is not a string otherwise. */
  datatype JsonValue = JsonString(text: string) | JsonOther

  /** `DeployJob`: a fresh id and the UTC creation time (from `BaseJob`), the product,
      and a current state that nothing sets, null. */
  datatype DeployJob = DeployJob(id: Guid, date: int, product: string, currentState: Option<string>)

  /** The two answers: `Results.BadRequest(text)` and `Results.Ok(id)`. */
  datatype Reply = BadRequest(message: string) | OkId(id: Guid)

  /** The product a request names, when it names one as a JSON string. */
  function RequestedProduct(body: map<string, JsonValue>): (p: Option<string>)
    ensures p.Some? <==> ProductKey in body && body[ProductKey].JsonString?
    ensures p.Some? ==> body[ProductKey] == JsonString(p.value)
  {
    if ProductKey in body && body[ProductKey].JsonString? then Some(body[ProductKey].text) else None
  }

  /** The application-wide `ConcurrentBag<DeployJob>` singleton, without order. */
  class JobBag {
    var jobs: multiset<DeployJob>

    constructor ()
      ensures jobs == multiset{}
    {
      jobs := multiset{};
    }

    method Add(job: DeployJob)
      modifies this
      ensures jobs == old(jobs) + multiset{job}
    {
      jobs := jobs + multiset{job};
    }
  }

  class DeployEndpointHandler {
    const bag: JobBag
    /** Where `Guid.NewGuid()` draws job ids from. */
    const guids: GuidSource

    constructor (bag: JobBag, guids: GuidSource)
      ensures this.bag == bag && this.guids == guids
    {
      this.bag := bag;
      this.guids := guids;
    }

    /** `Execute`: a request without a string Product is refused and nothing is added; a
        valid one adds exactly one job, with a never-issued id, the clock's time and the
        requested product, and answers with that id. */
    method Execute(body: map<string, JsonValue>, now: int) returns (r: Reply)
      requires guids.Valid()
      modifies bag, guids
      ensures guids.Valid()
      ensures RequestedProduct(body) == None ==>
        r == BadRequest(ProductRequired) && bag.jobs == old(bag.jobs) && guids.issued == old(guids.issued)
      ensures RequestedProduct(body).Some? ==>
        && r.OkId? && r.id != EmptyGuid && r.id !in old(guids.issued)
        && guids.issued == old(guids.issued) + {r.id}
        && bag.jobs == old(bag.jobs) + multiset{DeployJob(r.id, now, RequestedProduct(body).value, None)}
      ensures IdsIssued(old(bag.jobs), old(guids.issued)) && DistinctIds(old(bag.jobs)) ==>
        IdsIssued(bag.jobs, guids.issued) && DistinctIds(bag.jobs)
    {
      if ProductKey !in body || !body[ProductKey].JsonString? {
        return BadRequest(ProductRequired);
      }
      var product := body[ProductKey].text;
      var id := guids.NewGuid();
      var job := DeployJob(id, now, product, None);
      if IdsIssued(old(bag.jobs), old(guids.issued)) && DistinctIds(old(bag.jobs)) {
        AddKeepsIdsDistinct(bag.jobs, job);
      }
      bag.Add(job);
      r := OkId(job.id);
    }
  }

  /** Every job in the bag took its id from the Guid source. */
  ghost predicate IdsIssued(jobs: multiset<DeployJob>, issued: set<Guid>) {
    forall j :: j in jobs ==> j.id in issued
  }

  /** Every job in the bag holds a distinct id, so an answered id names exactly one job. */
  ghost predicate DistinctIds(jobs: multiset<DeployJob>) {
    forall j, k :: j in jobs && k in jobs && j.id == k.id ==> j == k && jobs[j] == 1
  }

  /** Adding a job whose id none of the bag's jobs has keeps them distinct. */
  lemma AddKeepsIdsDistinct(jobs: multiset<DeployJob>, job: DeployJob)
    requires DistinctIds(jobs)
    requires forall j :: j in jobs ==> j.id != job.id
    ensures DistinctIds(jobs + multiset{job})
  {
    var after := jobs + multiset{job};
    forall j, k | j in after && k in after && j.id == k.id
      ensures j == k && after[j] == 1
    {
      if j == job || k == job {
        assert j == job && k == job;
        assert job !in jobs;
      }
    }
  }
}
