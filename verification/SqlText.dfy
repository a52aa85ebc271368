/** The string functions that the replay applies to query text. A string is a
    sequence of bytes; letters and blanks are the ASCII ones. */
module SqlText {

  predicate IsSpace(c: char) {
    c == ' ' || '\t' <= c <= '\r'
  }

  function TrimLeft(s: string): string {
    if s != [] && IsSpace(s[0]) then TrimLeft(s[1..]) else s
  }

  function TrimRight(s: string): string {
    if s != [] && IsSpace(s[|s| - 1]) then TrimRight(s[..|s| - 1]) else s
  }

  /** strings.TrimSpace. */
  function TrimSpace(s: string): string {
    TrimRight(TrimLeft(s))
  }

  function Upper(c: char): char {
    if 'a' <= c <= 'z' then (c as int - 32) as char else c
  }

  function Lower(c: char): char {
    if 'A' <= c <= 'Z' then (c as int + 32) as char else c
  }

  function ToUpper(s: string): string {
    seq(|s|, i requires 0 <= i < |s| => Upper(s[i]))
  }

  function ToLower(s: string): string {
    seq(|s|, i requires 0 <= i < |s| => Lower(s[i]))
  }

  /** The leading run of non-blank characters: strings.Fields(s)[0] for a trimmed s. */
  function FirstWord(s: string): string {
    if s == [] || IsSpace(s[0]) then [] else [s[0]] + FirstWord(s[1..])
  }

  predicate HasPrefix(s: string, prefix: string) {
    prefix <= s
  }

  /** strings.Contains. */
  predicate Contains(s: string, part: string) {
    HasPrefix(s, part) || (s != [] && Contains(s[1..], part))
  }

  datatype DdlClass = Safe | Risky

  datatype QueryRole = Blank | Begin | Commit | Rollback | Ddl(ddlClass: DdlClass) | Other

  /** What a query event means to the replay. */
  function ClassifyQuery(query: string): QueryRole {
    var trimmed := TrimSpace(query);
    var upper := ToUpper(trimmed);
    if upper == "" then Blank
    else if upper == "BEGIN" then Begin
    else if upper == "COMMIT" then Commit
    else if upper == "ROLLBACK" then Rollback
    else ClassifyDdl(trimmed)
  }

  /** classifyDDL, on a trimmed query that is not empty. */
  function ClassifyDdl(trimmed: string): QueryRole {
    var first := ToUpper(FirstWord(trimmed));
    var normalized := " " + ToUpper(trimmed) + " ";
    if first == "DROP" || first == "TRUNCATE" || first == "RENAME" then Ddl(Risky)
    else if first == "CREATE" then
      Ddl(if Contains(normalized, " OR REPLACE ") then Risky else Safe)
    else if first == "ALTER" then
      if Contains(normalized, " DROP ") || Contains(normalized, " MODIFY ")
        || Contains(normalized, " CHANGE ") || Contains(normalized, " RENAME ") then Ddl(Risky)
      else if Contains(normalized, " ADD ") then Ddl(Safe)
      else Ddl(Risky)
    else Other
  }
}
