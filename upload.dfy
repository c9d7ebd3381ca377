/** The S3 upload service: a bucket of objects keyed by name, the public URL
    of an object, and the way the survey service later recovers an object's
    key from that URL. */
module Upload {
  import opened Wrappers
  import opened Strings

  type Bytes = seq<bv8>

  /** The configuration values the service reads; None where unset. */
  datatype AwsConfig = AwsConfig(
    region: Option<string>,
    accessKeyId: Option<string>,
    secretAccessKey: Option<string>,
    bucketName: Option<string>)

  /** The constructor's check: region, access key and secret must be set
      and non-empty. The bucket name is not checked. */
  predicate ConfigComplete(c: AwsConfig)
  {
    Truthy(c.region) && Truthy(c.accessKeyId) && Truthy(c.secretAccessKey)
  }

  /** How the bucket name reads inside a template literal: an unset value
      prints as "undefined". */
  function BucketText(c: AwsConfig): string
  {
    match c.bucketName
    case Some(b) => b
    case None => "undefined"
  }

  /** The separator the survey service splits stored image URLs on. */
  const KeySeparator: string := ".com/"

  /** The public URL that `uploadFile` returns for `key`. */
  function ObjectUrl(bucket: string, key: string): (url: string)
    ensures StartsWith(url, "https://")
    ensures url == "https://" + bucket + ".s3.amazonaws.com/" + key
  {
    "https://" + bucket + ".s3.amazonaws.com/" + key
  }

  /** `imageUrl.split('.com/')[1]`, None where that element is undefined. */
  function KeyFromUrl(url: string): (r: Option<string>)
    ensures r.None? <==> !Contains(url, KeySeparator)
    ensures r.Some? ==> !Contains(r.value, KeySeparator)
  {
    var parts := Split(url, KeySeparator);
    if |parts| >= 2 then Some(parts[1]) else None
  }

  lemma SeparatorTailHasNoDot(t: nat)
    requires 1 <= t < 5
    ensures KeySeparator[t] != '.'
  {
    assert t == 1 || t == 2 || t == 3 || t == 4;
  }

  lemma HostTailHasNoSeparator(k: nat)
    requires k < 13
    ensures ".s3.amazonaws.com/"[k] != '.' || ".s3.amazonaws.com/"[k + 1] != 'c'
  {
    assert k == 0 || k == 1 || k == 2 || k == 3 || k == 4 || k == 5 || k == 6 ||
           k == 7 || k == 8 || k == 9 || k == 10 || k == 11 || k == 12;
  }

  lemma SchemeHasNoDot(j: nat)
    requires j < 8
    ensures "https://"[j] != '.'
  {
    assert j == 0 || j == 1 || j == 2 || j == 3 || j == 4 || j == 5 || j == 6 || j == 7;
  }

  /** No occurrence of the separator in the URL starts before the one that
      ends the host name, when the bucket name does not contain it. */
  lemma NoSeparatorBeforeHost(bucket: string, key: string, j: nat)
    requires !Contains(bucket, KeySeparator)
    requires j < 8 + |bucket| + 13
    ensures !OccursAt(ObjectUrl(bucket, key), KeySeparator, j)
  {
    var url := ObjectUrl(bucket, key);
    var mid := ".s3.amazonaws.com/";
    var n := 8 + |bucket|;
    if j + 5 <= |url| {
      var w := url[j..j + 5];
      if j < 8 {
        assert w[0] == url[j] == "https://"[j];
        SchemeHasNoDot(j);
        assert w[0] != KeySeparator[0];
      } else if j + 5 <= n {
        assert w == bucket[j - 8..j - 3];
        assert !OccursAt(bucket, KeySeparator, j - 8);
      } else if j < n {
        assert w[n - j] == url[n] == mid[0];
        SeparatorTailHasNoDot(n - j);
        assert w[n - j] != KeySeparator[n - j];
      } else {
        assert w[0] == url[j] == mid[j - n];
        assert w[1] == url[j + 1] == mid[j - n + 1];
        HostTailHasNoSeparator(j - n);
        assert w[0] != KeySeparator[0] || w[1] != KeySeparator[1];
      }
    }
  }

  /** Round trip: splitting the URL of `key` recovers `key`, provided neither
      the bucket name nor the key contains ".com/". */
  lemma KeyFromUrlRoundTrip(bucket: string, key: string)
    requires !Contains(bucket, KeySeparator)
    requires !Contains(key, KeySeparator)
    ensures KeyFromUrl(ObjectUrl(bucket, key)) == Some(key)
  {
    var url := ObjectUrl(bucket, key);
    var p := 8 + |bucket| + 13;
    assert url[p..p + 5] == KeySeparator;
    assert url[p + 5..] == key;
    forall j | 0 <= j < p ensures !OccursAt(url, KeySeparator, j) {
      NoSeparatorBeforeHost(bucket, key, j);
    }
    IndexOfIsFirst(url, KeySeparator, p);
    SplitOnce(url, KeySeparator, p);
  }

  /** Without the condition on the key, the URL of a key holding ".com/"
      gives back only the part of the key before it. */
  lemma KeyFromUrlCutsDottedKey(bucket: string, head: string, tail: string)
    requires !Contains(bucket, KeySeparator)
    requires !Contains(head, KeySeparator)
    ensures KeyFromUrl(ObjectUrl(bucket, head + KeySeparator + tail)) == Some(head)
  {
    var key := head + KeySeparator + tail;
    var url := ObjectUrl(bucket, key);
    var p := 8 + |bucket| + 13;
    assert url[p..p + 5] == KeySeparator;
    forall j | 0 <= j < p ensures !OccursAt(url, KeySeparator, j) {
      NoSeparatorBeforeHost(bucket, key, j);
    }
    IndexOfIsFirst(url, KeySeparator, p);
    assert url[p + 5..] == key;
    forall t | 0 < t < |KeySeparator| ensures KeySeparator[t] != KeySeparator[0] {
      SeparatorTailHasNoDot(t);
    }
    SplitAtFirst(head, tail, KeySeparator);
  }

  /** For instance the key "x.com/y" comes back as "x". */
  lemma KeyFromUrlTruncatesDottedKey()
    ensures KeyFromUrl(ObjectUrl("b", "x.com/y")) == Some("x")
  {
    assert "x" + KeySeparator + "y" == "x.com/y";
    assert !Contains("b", KeySeparator) by {
      forall j | 0 <= j <= 1 ensures !OccursAt("b", KeySeparator, j) { }
    }
    assert !Contains("x", KeySeparator) by {
      forall j | 0 <= j <= 1 ensures !OccursAt("x", KeySeparator, j) { }
    }
    KeyFromUrlCutsDottedKey("b", "x", "y");
  }

  class UploadService {
    /** The bucket's objects. */
    var objects: map<string, Bytes>
    /** `AWS_S3_BUCKET_NAME` as the URLs print it. */
    const bucket: string

    constructor (config: AwsConfig, contents: map<string, Bytes>)
      requires ConfigComplete(config)
      ensures bucket == BucketText(config) && objects == contents
    {
      bucket := BucketText(config);
      objects := contents;
    }

    /** Construction throws when the configuration is incomplete. */
    static method Create(config: AwsConfig, contents: map<string, Bytes>) returns (r: Result<UploadService>)
      ensures r.Err? <==> !ConfigComplete(config)
      ensures r.Err? ==> r.error == Internal
      ensures r.Ok? ==> fresh(r.value) && r.value.bucket == BucketText(config) && r.value.objects == contents
    {
      if !ConfigComplete(config) {
        return Err(Internal);
      }
      var s := new UploadService(config, contents);
      return Ok(s);
    }

    /** `uploadFile`: puts the object and returns its URL. `ok` is the outcome
        of the S3 call; when it fails the error propagates. */
    method UploadFile(key: string, file: Bytes, contentType: string, ok: bool) returns (r: Result<string>)
      modifies this
      ensures ok ==> r == Ok(ObjectUrl(bucket, key)) && objects == old(objects)[key := file]
      ensures !ok ==> r == Err(Internal) && objects == old(objects)
    {
      if !ok {
        return Err(Internal);
      }
      objects := objects[key := file];
      return Ok(ObjectUrl(bucket, key));
    }

    /** `deleteFile`: removes the object `key` and no other (S3 accepts a
        missing key). `ok` is the outcome of the S3 call. */
    method DeleteFile(key: string, ok: bool) returns (r: Result<()>)
      modifies this
      ensures ok ==> r == Ok(()) && objects == old(objects) - {key}
      ensures !ok ==> r == Err(Internal) && objects == old(objects)
    {
      if !ok {
        return Err(Internal);
      }
      objects := objects - {key};
      return Ok(());
    }

    /** `replaceFile`: deletes the old object, then uploads the new one; when
        the delete fails nothing is uploaded. */
    method ReplaceFile(oldKey: string, newKey: string, file: Bytes, contentType: string,
                       deleteOk: bool, uploadOk: bool) returns (r: Result<string>)
      modifies this
      ensures !deleteOk ==> r == Err(Internal) && objects == old(objects)
      ensures deleteOk && !uploadOk ==> r == Err(Internal) && objects == old(objects) - {oldKey}
      ensures deleteOk && uploadOk ==>
                r == Ok(ObjectUrl(bucket, newKey)) && objects == (old(objects) - {oldKey})[newKey := file]
    {
      var d := DeleteFile(oldKey, deleteOk);
      if d.Err? {
        return Err(d.error);
      }
      r := UploadFile(newKey, file, contentType, uploadOk);
    }
  }
}
