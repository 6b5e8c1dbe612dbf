/** The records the dashboard stores, one per handled request. */
module Events {

  datatype Option<T> = None | Some(value: T)

  /**
   * One logged prediction. `toxicity` is the stage-two verdict string
   * ("TOXIC" or "NON-TOXIC" from the scoring rules); the optional fields are
   * the `.get(...)` lookups that may yield `None`.
   */
  datatype Prediction = Prediction(
    timestamp: string,
    nanoparticleId: string,
    toxicity: string,
    confidence: Option<real>,
    cytotoxicity: Option<string>,
    responseTimeMs: real,
    keyFactors: map<string, string>,
    riskLevel: Option<string>)

  /** One sent contact form; `message` is already cut to its stored length. */
  datatype Contact = Contact(
    timestamp: string,
    name: string,
    email: string,
    profession: string,
    phone: string,
    message: string)

  /** One sent dataset sharing request; `description` is already cut to its stored length. */
  datatype DatasetShare = DatasetShare(
    timestamp: string,
    name: string,
    email: string,
    organization: string,
    description: string,
    datasetSize: string,
    researchArea: string)
}
