/**
 * The settings held in `config.json` and the interactive update of
 * `configure_settings`: each answer is stripped; a blank answer keeps the
 * current value, any other replaces it; the settings are saved only when a
 * destination is set.
 */
module Settings {
  import opened Text

  /** The value a setting takes after the user answers `input` to its prompt. */
  function KeepOrReplace(current: string, input: string): (r: string)
    ensures Blank(input) ==> r == current
    ensures !Blank(input) ==> r == Strip(input) && |r| > 0
    ensures |r| > 0 <==> |current| > 0 || !Blank(input)
  {
    var answer := Strip(input);
    if |answer| > 0 then answer else current
  }

  /**
   * Giving the same answer a second time changes nothing; in particular a
   * value typed with surrounding spaces is stored without them, so typing
   * it again is a no-op.
   */
  lemma KeepOrReplaceStable(current: string, input: string)
    ensures KeepOrReplace(KeepOrReplace(current, input), input) == KeepOrReplace(current, input)
    ensures !Blank(input) ==> Strip(KeepOrReplace(current, input)) == KeepOrReplace(current, input)
  {
    StripIdempotent(input);
  }

  /** The configuration: source remote, destination path and the rclone executable. */
  class Config {
    var source: string
    var destination: string
    var rclonePath: string

    /** The defaults used when no configuration file can be read. */
    constructor Default()
      ensures source == "gdrive:" && destination == "" && rclonePath == "rclone"
    {
      source := "gdrive:";
      destination := "";
      rclonePath := "rclone";
    }

    /** A configuration with the given values, as read from the file. */
    constructor Loaded(source: string, destination: string, rclonePath: string)
      ensures this.source == source && this.destination == destination && this.rclonePath == rclonePath
    {
      this.source := source;
      this.destination := destination;
      this.rclonePath := rclonePath;
    }

    /** The configuration may be saved only when its destination is set. */
    predicate Savable()
      reads this
    {
      |destination| > 0
    }

    /**
     * `configure_settings` after the configuration is loaded: apply the
     * answers to the source and destination prompts in place; `saved` is
     * whether the configuration is then written back.
     */
    method Configure(sourceInput: string, destInput: string) returns (saved: bool)
      modifies this`source, this`destination
      ensures source == KeepOrReplace(old(source), sourceInput)
      ensures destination == KeepOrReplace(old(destination), destInput)
      ensures saved <==> Savable()
    {
      var answer := Strip(sourceInput);
      if |answer| > 0 {
        source := answer;
      }
      answer := Strip(destInput);
      if |answer| > 0 {
        destination := answer;
      }
      saved := |destination| > 0;
    }
  }
}
