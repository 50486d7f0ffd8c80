// The binary locator of src/binary.rs: which `lit` release file fits the
// platform, where it lives in the cache directory, where it is downloaded
// from, and when it is downloaded at all.
//
// The file system and the network are parameters: whether the path exists,
// the answer to the download request, and how writing the file and setting
// its permissions went.  Paths use `/` as separator.

module Binary {
  import opened Base
  import opened Text

  const Version: string := "v0.7.0"
  const BaseUrl: string := "https://github.com/google-ai-edge/LiteRT-LM/releases/download"

  /** `(env::consts::OS, env::consts::ARCH)` */
  datatype Platform = Platform(os: string, arch: string)

  /** The four supported platforms, in the order of the table. */
  const Supported: seq<Platform> := [
    Platform("linux", "aarch64"), Platform("linux", "x86_64"),
    Platform("macos", "aarch64"), Platform("windows", "x86_64")]

  /** The release files, in the same order. */
  const Files: seq<string> := ["lit.linux_arm64", "lit.linux_x86_64", "lit.macos_arm64", "lit.windows_x86_64.exe"]

  /**
   * `get_binary_filename`: the release file of a supported platform; any
   * other platform is the panic "Unsupported platform: os/arch", here an
   * error value.
   */
  function BinaryFilename(p: Platform): (r: Result<string, string>)
    ensures r.Err? ==> r.error == "Unsupported platform: " + p.os + "/" + p.arch
  {
    match (p.os, p.arch)
    case ("linux", "aarch64") => Ok("lit.linux_arm64")
    case ("linux", "x86_64") => Ok("lit.linux_x86_64")
    case ("macos", "aarch64") => Ok("lit.macos_arm64")
    case ("windows", "x86_64") => Ok("lit.windows_x86_64.exe")
    case _ => Err("Unsupported platform: " + p.os + "/" + p.arch)
  }

  /** The platform a release file is built for, if it is one of them. */
  function PlatformOf(file: string): (r: Option<Platform>)
  {
    if file == "lit.linux_arm64" then Some(Platform("linux", "aarch64"))
    else if file == "lit.linux_x86_64" then Some(Platform("linux", "x86_64"))
    else if file == "lit.macos_arm64" then Some(Platform("macos", "aarch64"))
    else if file == "lit.windows_x86_64.exe" then Some(Platform("windows", "x86_64"))
    else None
  }

  /**
   * The table is exactly the four supported pairs, each with its own file:
   * a platform has a file iff it is supported, and the file names its
   * platform back, so no two platforms share a file.
   */
  lemma FilenameTable(p: Platform)
    ensures BinaryFilename(p).Ok? <==> p in Supported
    ensures forall k :: 0 <= k < 4 && p == Supported[k] ==> BinaryFilename(p) == Ok(Files[k])
    ensures BinaryFilename(p).Ok? ==> PlatformOf(BinaryFilename(p).value) == Some(p)
  {
  }

  /** Every release file and only those come from a platform. */
  lemma PlatformOfFile(file: string)
    ensures PlatformOf(file).Some? <==> file in Files
    ensures PlatformOf(file).Some? ==> BinaryFilename(PlatformOf(file).value) == Ok(file)
  {
  }

  /** `PathBuf::join` with a relative name. */
  function JoinPath(dir: string, name: string): string {
    if dir == [] || dir[|dir| - 1] == '/' then dir + name else dir + "/" + name
  }

  /** The last component of a path: what follows its last `/`. */
  function LastComponent(path: string): (r: string)
    ensures '/' !in r && IsSuffix(r, path)
    decreases |path|
  {
    if path == [] || path[|path| - 1] == '/' then []
    else LastComponent(path[..|path| - 1]) + [path[|path| - 1]]
  }

  /** `a` is a suffix of `b` */
  predicate IsSuffix(a: string, b: string) {
    |a| <= |b| && b[|b| - |a|..] == a
  }

  /** Joining a name without separators makes it the path's last component. */
  lemma JoinedLast(dir: string, name: string)
    requires '/' !in name
    ensures LastComponent(JoinPath(dir, name)) == name
  {
    var head := if dir == [] || dir[|dir| - 1] == '/' then dir else dir + "/";
    assert JoinPath(dir, name) == head + name;
    LastAfterSlash(head, name);
  }

  /** A joined path starts with the directory, followed by the name or by `/` and the name. */
  lemma JoinedUnder(dir: string, name: string)
    ensures StartsWith(JoinPath(dir, name), dir)
    ensures var rest := JoinPath(dir, name)[|dir|..]; rest == name || rest == "/" + name
  {
    var path := JoinPath(dir, name);
    if dir == [] || dir[|dir| - 1] == '/' {
      assert path == dir + name;
      assert path[..|dir|] == dir && path[|dir|..] == name;
    } else {
      assert path == dir + ("/" + name);
      assert path[..|dir|] == dir && path[|dir|..] == "/" + name;
    }
  }

  lemma {:induction false} LastAfterSlash(head: string, name: string)
    requires head == [] || head[|head| - 1] == '/'
    requires '/' !in name
    ensures LastComponent(head + name) == name
    decreases |name|
  {
    if name == [] {
      assert head + name == head;
    } else {
      var init := name[..|name| - 1];
      LastAfterSlash(head, init);
      assert (head + name)[..|head + name| - 1] == head + init;
    }
  }

  /** `get_binary_path`: the release file in the cache directory. */
  function BinaryPath(cacheDir: string, p: Platform): (r: Result<string, string>)
    ensures r.Ok? <==> BinaryFilename(p).Ok?
    ensures r.Ok? ==> LastComponent(r.value) == BinaryFilename(p).value
    ensures r.Ok? ==> StartsWith(r.value, cacheDir)
    ensures r.Ok? ==> var rest := r.value[|cacheDir|..];
      rest == BinaryFilename(p).value || rest == "/" + BinaryFilename(p).value
  {
    match BinaryFilename(p)
    case Err(e) => Err(e)
    case Ok(file) =>
      JoinedLast(cacheDir, file);
      JoinedUnder(cacheDir, file);
      Ok(JoinPath(cacheDir, file))
  }

  /** The URL of `download_binary`. */
  function DownloadUrl(p: Platform): (r: Result<string, string>)
    ensures r.Ok? <==> BinaryFilename(p).Ok?
  {
    match BinaryFilename(p)
    case Err(e) => Err(e)
    case Ok(file) => Ok(BaseUrl + "/" + Version + "/" + file)
  }

  /** The URL is the release directory of this version followed by the file. */
  lemma UrlNamesRelease(p: Platform)
    requires BinaryFilename(p).Ok?
    ensures StripPrefix(DownloadUrl(p).value, BaseUrl + "/" + Version + "/") == Some(BinaryFilename(p).value)
    ensures LastComponent(DownloadUrl(p).value) == BinaryFilename(p).value
  {
    var file := BinaryFilename(p).value;
    var dir := BaseUrl + "/" + Version;
    assert DownloadUrl(p).value == dir + "/" + file;
    assert (dir + "/" + file)[..|dir + "/"|] == dir + "/";
    JoinedLast(dir, file);
  }

  /**
   * The answer to the download request: the status code and that code's
   * canonical reason phrase (what `StatusCode`'s `Display` prints after the
   * code), not a phrase sent by the server.
   */
  datatype HttpResponse = HttpResponse(status: nat, reason: string)

  predicate IsSuccess(status: nat) {
    200 <= status <= 299
  }

  /**
   * `ensure_binary`: an existing file is used as it is; otherwise it is
   * downloaded (the request failing, a non-success status, and failures
   * writing the file or setting its permissions are errors) and its path
   * returned.
   */
  function EnsureBinary(cacheDir: string, p: Platform, present: string -> bool,
                        fetched: Result<HttpResponse, string>, stored: Result<(), string>): (r: Result<string, string>)
    ensures r.Ok? ==> BinaryPath(cacheDir, p) == r
  {
    match BinaryPath(cacheDir, p)
    case Err(e) => Err(e)
    case Ok(path) =>
      if present(path) then Ok(path)
      else
        match fetched
        case Err(_) => Err("Failed to download binary")
        case Ok(response) =>
          if !IsSuccess(response.status) then
            Err("Failed to download binary: HTTP " + Decimal(response.status) + " " + response.reason)
          else
            match stored
            case Err(e) => Err(e)
            case Ok(_) => Ok(path)
  }

  /**
   * When the file is already there, nothing of the download matters: the
   * answer is its path, whatever the network and the disk would have done.
   */
  lemma ExistingSkipsDownload(cacheDir: string, p: Platform, present: string -> bool,
                              f1: Result<HttpResponse, string>, s1: Result<(), string>,
                              f2: Result<HttpResponse, string>, s2: Result<(), string>)
    requires BinaryPath(cacheDir, p).Ok? && present(BinaryPath(cacheDir, p).value)
    ensures EnsureBinary(cacheDir, p, present, f1, s1) == EnsureBinary(cacheDir, p, present, f2, s2) == BinaryPath(cacheDir, p)
  {
  }

  /**
   * When the file is missing, the download decides: a failed request is the
   * context error, a failed write or permission change is passed on, and
   * only a stored download gives the path.
   */
  lemma MissingFileDownloads(cacheDir: string, p: Platform, present: string -> bool,
                             fetched: Result<HttpResponse, string>, stored: Result<(), string>)
    requires BinaryPath(cacheDir, p).Ok? && !present(BinaryPath(cacheDir, p).value)
    ensures var r := EnsureBinary(cacheDir, p, present, fetched, stored);
      && (fetched.Err? ==> r == Err("Failed to download binary"))
      && (fetched.Ok? && IsSuccess(fetched.value.status) && stored.Err? ==> r == Err(stored.error))
      && (fetched.Ok? && IsSuccess(fetched.value.status) && stored.Ok? ==> r == BinaryPath(cacheDir, p))
      && (r.Ok? <==> fetched.Ok? && IsSuccess(fetched.value.status) && stored.Ok?)
  {
  }

  /** A download answered with a non-success status is an error naming its code and reason. */
  lemma FailedStatusIsError(cacheDir: string, p: Platform, present: string -> bool,
                            response: HttpResponse, stored: Result<(), string>)
    requires BinaryPath(cacheDir, p).Ok? && !present(BinaryPath(cacheDir, p).value)
    requires !IsSuccess(response.status)
    ensures var r := EnsureBinary(cacheDir, p, present, Ok(response), stored);
      && r == Err("Failed to download binary: HTTP " + Decimal(response.status) + " " + response.reason)
      && StartsWith(r.error, "Failed to download binary: HTTP ")
  {
    var r := EnsureBinary(cacheDir, p, present, Ok(response), stored);
    var tail := Decimal(response.status) + " " + response.reason;
    assert r.error == "Failed to download binary: HTTP " + tail;
  }
}
