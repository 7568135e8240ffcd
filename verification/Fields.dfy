/** "key: value" lines, as the blocks of an expert's answer hold them. */
module Fields {
  import opened Basics
  import opened Text
  import opened TextLemmas

  /** The value of a line that, trimmed, begins with the key. */
  function ValueOf(key: string, line: string): Option<string> {
    var l := TrimSpace(line);
    if HasPrefix(l, key) then Some(TrimSpace(TrimPrefix(l, key))) else None
  }

  /** A word with no space at either end. */
  predicate Solid(s: string) {
    s != "" && Trimmed(s)
  }

  lemma BlankOne()
    ensures Blank(" ") && Blank("\n") && Blank(" \n") && Blank("")
  {
  }

  /** Trimming a rendered field: a blank value leaves only the key. */
  lemma TrimField(key: string, value: string)
    requires Solid(key) && Trimmed(value)
    ensures TrimSpace(key + " " + value) == if value == "" then key else key + " " + value
  {
    hide IsSpace, TrimSpace, Blank;
    BlankOne();
    if value == "" {
      TrimSpaceOf("", key, " ");
      assert "" + key + " " == key + " " + value;
    } else {
      TrimSpaceSame(key + " " + value);
    }
  }

  lemma FieldReads(key: string, value: string)
    requires Solid(key) && Trimmed(value)
    ensures ValueOf(key, key + " " + value) == Some(value)
    ensures ValueOf(key, TrimSpace(key + " " + value)) == Some(value)
  {
    hide IsSpace, TrimSpace, Blank, Trimmed;
    BlankOne();
    TrimField(key, value);
    var l := TrimSpace(key + " " + value);
    TrimSpaceSame(value);
    TrimSpaceOf(" ", value, "");
    assert " " + value + "" == " " + value;
    FieldIsTrimmed(key, value);
    TrimSpaceSame(l);
    if value == "" {
      assert TrimPrefix(l, key) == "";
    } else {
      assert TrimPrefix(l, key) == " " + value;
    }
  }

  lemma FieldIsTrimmed(key: string, value: string)
    requires Solid(key) && Trimmed(value)
    ensures Trimmed(if value == "" then key else key + " " + value)
  {
    hide IsSpace;
  }

  /** A line that starts with another character is not a field of this key. */
  lemma OtherField(key: string, line: string)
    requires Solid(key) && Solid(line) && key[0] != line[0]
    ensures ValueOf(key, line) == None
  {
    hide IsSpace, TrimSpace;
    TrimSpaceSame(line);
  }

  /** One line, and no space at either end. */
  predicate OneLine(s: string) {
    Trimmed(s) && '\n' !in s
  }

  /** What a rendered field shows once trimmed. */
  function FieldLine(key: string, value: string): string {
    if value == "" then key else key + " " + value
  }

  lemma FieldLineFacts(key: string, value: string)
    requires Solid(key) && OneLine(key) && OneLine(value)
    ensures var l := FieldLine(key, value);
            Solid(l) && '\n' !in l && l[0] == key[0] && ValueOf(key, l) == Some(value)
  {
    hide IsSpace, TrimSpace, ValueOf;
    TrimField(key, value);
    FieldReads(key, value);
    FieldIsTrimmed(key, value);
    assert '\n' !in " ";
  }
}
