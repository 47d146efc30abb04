/** The values the three validators exchange with the cluster API types and with their collaborators. */
module Kube {
  import opened Text

  type Bytes = seq<bv8>

  /** A collaborator's answer: a value, or the error it returned. */
  datatype Result<T> = Ok(value: T) | Err(error: string)

  /** metav1.TypeMeta: the Kind and APIVersion headers of a serialised object. */
  datatype TypeMeta = TypeMeta(kind: string, apiVersion: string)

  /** The dynamic Go type behind the metav1.Object interface value handed to Validate;
      OtherType also stands for a nil interface value, on which every type assertion fails.
      A typed nil pointer, which would pass the assertion and then panic, is not modelled. */
  datatype GoType =
    | CoreV1Pod
    | AppsV1DaemonSet
    | AppsV1Deployment
    | ExtensionsV1beta1Deployment
    | OtherType(typeName: string)

  /** What the serializer can see of an object at the moment it is encoded. */
  datatype Snapshot = Snapshot(goType: GoType, name: string, typeMeta: TypeMeta, body: string)

  /** The object the admission library decoded from the request; Validate receives a pointer
      to it and overwrites its TypeMeta in place. `body` stands for every other field. */
  class Object {
    const goType: GoType
    const name: string
    const body: string
    var typeMeta: TypeMeta

    constructor (goType: GoType, name: string, typeMeta: TypeMeta, body: string)
      ensures this.goType == goType && this.name == name
      ensures this.typeMeta == typeMeta && this.body == body
    {
      this.goType := goType;
      this.name := name;
      this.typeMeta := typeMeta;
      this.body := body;
    }

    function View(): (s: Snapshot)
      reads this
    {
      Snapshot(goType, name, typeMeta, body)
    }
  }

  /** One entry of the scanner's reply: its score and its error field (empty when the scan
      worked); `findings` stands for the rest of the report, which only the pretty-printer reads. */
  datatype ScanResult = ScanResult(score: int, error: string, findings: seq<string>)

  /** validating.ValidatorResult. */
  datatype ValidatorResult = ValidatorResult(valid: bool, message: string)

  /** The result every fail-open return builds: Valid true and the zero message. */
  const Allow := ValidatorResult(true, "")

  /** The record a constructor hands to validating.NewWebhook: the webhook's ID (its Name in
      the older library), the Go type requests are decoded into, and the validator. */
  datatype WebhookConfig<V> = WebhookConfig(id: string, obj: GoType, validator: V)
}
