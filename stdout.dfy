/** Standard output, as seen by `println!`: an ordered list of lines. */
module Console {

  class Stdout {
    /** Every line printed so far, oldest first. */
    var lines: seq<string>

    constructor ()
      ensures lines == []
    {
      lines := [];
    }

    /** `println!`: appends one line and changes nothing else. */
    method PrintLine(line: string)
      modifies this
      ensures lines == old(lines) + [line]
    {
      lines := lines + [line];
    }
  }
}
