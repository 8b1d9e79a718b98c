/** Names and folders of container files (card_login_mount_session.cpp:1185-1200
    and :1326-1333). Windows compares file names without regard to case; the
    comparison here folds the ASCII letters. */
module Paths {
  import opened Wrappers

  const STAGING_SUFFIX := ".preparing"

  predicate IsSeparator(c: char) {
    c == '\\' || c == '/'
  }

  function FoldChar(c: char): char {
    if 'a' <= c <= 'z' then (c as int - 'a' as int + 'A' as int) as char else c
  }

  function Fold(s: string): string {
    seq(|s|, i requires 0 <= i < |s| => FoldChar(s[i]))
  }

  predicate SamePath(a: string, b: string) {
    Fold(a) == Fold(b)
  }

  function StagingPathFor(path: string): string {
    path + STAGING_SUFFIX
  }

  /** Position of the last separator, when there is one. */
  function LastSeparator(path: string): (at: Option<nat>)
    ensures at.Some? ==> at.value < |path| && IsSeparator(path[at.value])
  {
    if path == [] then None
    else if IsSeparator(path[|path| - 1]) then Some(|path| - 1)
    else LastSeparator(path[..|path| - 1])
  }

  function FileNameOf(path: string): string {
    match LastSeparator(path)
    case None => path
    case Some(at) => path[at + 1..]
  }

  /** The folder a protected container lives in. A path without a folder of its
      own is refused. */
  function ProtectedDirectoryOf(path: string): Option<string> {
    match LastSeparator(path)
    case None => None
    case Some(at) =>
      if at == 0 || path[at - 1] == ':' || at + 1 == |path| then None else Some(path[..at])
  }

  const NAME_LIMIT := 100

  predicate IsBlank(c: char) {
    c == ' ' || c == '\U{A0}' || c == '\U{3000}' || '\U{2000}' <= c <= '\U{200A}'
    || c == '\U{1680}' || c == '\U{202F}' || c == '\U{205F}'
  }

  /** A display name may be empty; otherwise it shows something, and holds no
      control character, line separator or path separator. */
  predicate ValidDisplayName(name: string) {
    && |name| <= NAME_LIMIT
    && (forall c :: c in name ==>
          && '\U{20}' <= c && !('\U{7F}' <= c <= '\U{9F}')
          && c != '\U{2028}' && c != '\U{2029}' && !IsSeparator(c))
    && (name != "" ==> exists c :: c in name && !IsBlank(c))
  }
}
