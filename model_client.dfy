/** What the stages send to the language-model client. The client itself is
    outside the model: each stage receives the client's reply as an input,
    `None` when the call raised and `Some(text)` with the response's content
    when it returned. */
module ModelClient {

  /** Generation options: the temperature in tenths (0.3 is 3) and the
      `num_predict` output budget. */
  datatype Sampling = Sampling(temperatureTenths: nat, numPredict: nat)

  /** One call of the client: the user message and the options. The system
      message of every stage is a constant and is not recorded. */
  datatype ModelCall = ModelCall(user: string, sampling: Sampling)
}
