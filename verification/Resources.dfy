/** Normalized cloud resources, the input of the attack-path pipeline. */
module Resources {
  import opened Prelude
  import opened Json

  /** An entry of `accessed_buckets`: a dict with an optional `resource_id`, or the bare bucket id. */
  datatype BucketRef = BucketRecord(recordId: Option<string>) | BucketName(name: string)

  /**
   * The part of a normalized resource that the attack-path code reads. A relation list that is absent
   * reads as empty. The id is a text, possibly empty: a resource without one, or with a null id, is none of
   * these (for an instance attached to a public group the code would raise, or name a node "None").
   * `ingress` keeps any JSON value.
   */
  datatype Resource = Resource(
    id: string,
    kind: string,
    securityGroups: seq<string>,
    profileArn: Option<string>,
    profileArns: seq<string>,
    policyArns: seq<string>,
    buckets: seq<BucketRef>,
    ingress: Option<Json>)

  const INSTANCE := "ec2_instance"
  const ROLE := "iam_role"
  const POLICY := "iam_policy"
  const BUCKET := "s3_bucket"
  const GROUP := "security_group"

  /** The dict `fields` carries resource `r`: what the rule engine is given for the same resource. */
  ghost predicate Describes(fields: map<string, Json>, r: Resource) {
    && "resource_id" in fields && fields["resource_id"] == Str(r.id)
    && "resource_type" in fields && fields["resource_type"] == Str(r.kind)
    && ListAt(fields, "security_groups", r.securityGroups)
    && Get(fields, "iam_instance_profile_arn") == (if r.profileArn.Some? then Str(r.profileArn.value) else Null)
    && ListAt(fields, "instance_profile_arns", r.profileArns)
    && ListAt(fields, "attached_policy_arns", r.policyArns)
    && BucketsAt(fields, r.buckets)
    && ("ingress" in fields <==> r.ingress.Some?)
    && (r.ingress.Some? ==> fields["ingress"] == r.ingress.value)
  }

  ghost predicate ListAt(fields: map<string, Json>, key: string, texts: seq<string>) {
    if key in fields then fields[key] == List(seq(|texts|, i requires 0 <= i < |texts| => Str(texts[i])))
    else texts == []
  }

  ghost predicate BucketsAt(fields: map<string, Json>, buckets: seq<BucketRef>) {
    if "accessed_buckets" in fields then
      && fields["accessed_buckets"].List?
      && |fields["accessed_buckets"].items| == |buckets|
      && forall i :: 0 <= i < |buckets| ==> BucketAt(fields["accessed_buckets"].items[i], buckets[i])
    else buckets == []
  }

  ghost predicate BucketAt(j: Json, bucket: BucketRef) {
    match bucket
    case BucketName(name) => j == Str(name)
    case BucketRecord(id) =>
      j.Obj? && Get(j.fields, "resource_id") == (if id.Some? then Str(id.value) else Null)
  }

  /** The id a bucket entry names, empty when there is none. */
  function BucketId(b: BucketRef): string {
    match b
    case BucketName(name) => name
    case BucketRecord(Some(id)) => id
    case BucketRecord(None) => ""
  }
}
