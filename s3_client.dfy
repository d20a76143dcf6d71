/**
 * The mock storage client of lib/s3-client.ts. Its listing filters a fixed
 * list of four objects by the credentials' prefix; its validation accepts
 * every credential value.
 */
module S3Client {
  import opened Wrappers
  import opened Sequences
  import opened Text
  import opened Store

  /** The fabricated bucket contents, in listing order (dates are UTC midnight, in milliseconds). */
  const MockFiles: seq<S3File> := [
    S3File("documents/report-2024.pdf", 2048576, 1705276800000, "\"abc123\""),
    S3File("images/logo.png", 524288, 1704844800000, "\"def456\""),
    S3File("data/export.csv", 1048576, 1705017600000, "\"ghi789\""),
    S3File("backup/database.sql", 10485760, 1704672000000, "\"jkl012\"")
  ]

  /**
   * `validateCredentials`: always succeeds. The length check on the access
   * and secret keys is commented out in the source and never applied.
   */
  function ValidateCredentials(credentials: Credentials): (ok: bool)
    ensures ok
  {
    true
  }

  /** The prefix test of the listing, on one file. */
  function HasPrefix(prefix: string): S3File -> bool {
    (f: S3File) => StartsWith(f.key, prefix)
  }

  /**
   * `listObjects`: the mock entries whose key starts with the prefix
   * (case-sensitive), in their original order; an absent or empty prefix
   * (falsy in the source) keeps all four.
   */
  function ListObjects(credentials: Credentials): (files: seq<S3File>)
    ensures credentials.prefix == None || credentials.prefix == Some("") ==> files == MockFiles
    ensures credentials.prefix.Some? ==>
      forall f :: f in files <==> f in MockFiles && StartsWith(f.key, credentials.prefix.value)
    ensures IsSubsequence(files, MockFiles)
    ensures |files| <= 4
  {
    if credentials.prefix.Some? && credentials.prefix.value != "" then
      Filter(MockFiles, HasPrefix(credentials.prefix.value))
    else
      assert IsSubsequence(MockFiles, MockFiles) by { SubsequenceOfItself(MockFiles); }
      MockFiles
  }

  /** The four mock keys are pairwise distinct. */
  lemma MockKeysDistinct()
    ensures DistinctKeys(MockFiles)
  {
  }

  /** The mock keys are pairwise distinct, so every listing has distinct keys. */
  lemma ListingKeysDistinct(credentials: Credentials)
    ensures DistinctKeys(MockFiles)
    ensures DistinctKeys(ListObjects(credentials))
  {
    MockKeysDistinct();
    SubsequenceDistinct(ListObjects(credentials), MockFiles);
  }

  /** With prefix "documents/" only the report is listed. */
  lemma DocumentsPrefix(c: Credentials)
    requires c.prefix == Some("documents/")
    ensures ListObjects(c) == [MockFiles[0]]
  {
    var p := HasPrefix("documents/");
    assert p(MockFiles[0]);
    assert !p(MockFiles[1]) by { assert MockFiles[1].key[..10][0] != "documents/"[0]; }
    assert !p(MockFiles[2]) by { assert MockFiles[2].key[..10][1] != "documents/"[1]; }
    assert !p(MockFiles[3]) by { assert MockFiles[3].key[..10][0] != "documents/"[0]; }
    assert MockFiles == [MockFiles[0]] + MockFiles[1..];
  }
}
