/** The storage step both the PostgreSQL and the MongoDB handler perform
    (`_handle_storage` and `_upload_to_cloud`, identical in the two files):
    validate the storage choice, then dispatch on the provider name. */
module CloudDispatch {
  import opened PosixPath
  import opened Exceptions
  import opened Artifacts

  /** The provider a name selects, compared exactly (no case folding). */
  function ProviderNamed(name: string): (r: Option<Provider>)
    ensures r == Some(Aws) <==> name == "aws"
    ensures r == Some(Gcp) <==> name == "gcp"
    ensures r == Some(Azure) <==> name == "azure"
  {
    if name == "aws" then Some(Aws)
    else if name == "gcp" then Some(Gcp)
    else if name == "azure" then Some(Azure)
    else None
  }

  /** `_upload_to_cloud`. `store_on_s3` and `store_on_gcp` are declared with
      two parameters but called with three (the logger), so those calls raise
      TypeError before uploading; only Azure reaches an upload, and it fails
      on a missing file name (the blob name is split out of it). Every
      failure is re-raised as a RuntimeError. */
  function UploadToCloud(file: Option<Path>, provider: string, bucket: string, w: World): (r: Logged<()>)
    ensures r.result.Err? ==> r.result.error.Runtime? && r.result.error.context == CloudUploadError
    ensures ProviderNamed(provider).None? ==>
              r == Logged(Err(Runtime(CloudUploadError, ValueError(UnsupportedProvider))), [])
    ensures r.result.Ok? <==> provider == "azure" && file.Some? && w.azureAccepts
    ensures r.log == if provider == "azure" then [UploadCalled(Azure, bucket, file)] else []
  {
    match ProviderNamed(provider)
    case None => Logged(Err(Runtime(CloudUploadError, ValueError(UnsupportedProvider))), [])
    case Some(Aws) => Logged(Err(Runtime(CloudUploadError, TypeError)), [])
    case Some(Gcp) => Logged(Err(Runtime(CloudUploadError, TypeError)), [])
    case Some(Azure) =>
      var log := [UploadCalled(Azure, bucket, file)];
      if file.Some? && w.azureAccepts then Logged(Ok(()), log)
      else Logged(Err(Runtime(CloudUploadError, UploadFailure)), log)
  }

  /** `_handle_storage`: "cloud" needs a non-empty provider and bucket and
      fails before any upload otherwise; "local" only logs, the file stays
      where it is; any other storage name is rejected. */
  function HandleStorage(file: Option<Path>, storage: string, provider: Option<string>,
                         bucket: Option<string>, w: World): (r: Logged<()>)
    ensures storage == "cloud" && !(Truthy(provider) && Truthy(bucket)) ==>
              r == Logged(Err(ValueError(CloudConfigMissing)), [])
    ensures storage == "local" ==> r == Logged(Ok(()), [])
    ensures storage != "cloud" && storage != "local" ==>
              r == Logged(Err(ValueError(UnsupportedStorage)), [])
    ensures r.log != [] ==>
              storage == "cloud" && provider == Some("azure") && Truthy(bucket)
              && r.log == [UploadCalled(Azure, bucket.value, file)]
    ensures storage == "cloud" && Truthy(provider) && Truthy(bucket) ==>
              r == UploadToCloud(file, provider.value, bucket.value, w)
    ensures r.result.Ok? <==>
              storage == "local" || (storage == "cloud" && provider == Some("azure") && Truthy(bucket)
                                     && file.Some? && w.azureAccepts)
  {
    if storage == "cloud" then
      if !Truthy(provider) || !Truthy(bucket) then Logged(Err(ValueError(CloudConfigMissing)), [])
      else UploadToCloud(file, provider.value, bucket.value, w)
    else if storage == "local" then Logged(Ok(()), [])
    else Logged(Err(ValueError(UnsupportedStorage)), [])
  }
}
