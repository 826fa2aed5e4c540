/** The Unicode tables and path normalizer the program calls, as parameters. */
module Names {
  import opened Text

  datatype Tables = Tables(
    normalize: string -> Option<string>,  // normalize_relative_path; None when it raises
    nfc: string -> string,                // unicodedata.normalize("NFC", ...)
    casefold: string -> string,
    sensitive: string -> bool             // is_sensitive_workspace_path
  )

  /** Spelling-insensitive key of a path: `normalize("NFC", path).casefold()`. */
  function Key(t: Tables, path: string): string {
    t.casefold(t.nfc(path))
  }

  /** The normalizer raises on control characters, so it never returns a path with a NUL. */
  ghost predicate RejectsNul(t: Tables) {
    forall s: string :: t.normalize(s).Some? ==> '\0' !in s
  }
}
