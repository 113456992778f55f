/**
 * The two WeeChat host calls the callback makes. `buffer_search` is an
 * arbitrary function of the plugin and buffer names, fixed for the life of
 * a host; `prnt_date_tags` is recorded by appending to an emission log.
 * Fixing `buffer_search` is a simplification: in WeeChat its answer depends
 * on which buffers are open at the time, which can change between two
 * callbacks. Each callback makes a single lookup, so within one callback a
 * fixed answer is all that can be observed.
 * What the host later does with a printed line (logging, displaying,
 * honouring tags such as `no_log`) is outside this model.
 */
module Weechat {

  /** WeeChat hands buffer pointers to scripts as strings ("" when not found). */
  type BufferPointer = string

  /** One `prnt_date_tags(buffer, date, tags, message)` call. */
  datatype Emission = Emission(buffer: BufferPointer, date: int, tags: string, message: string)

  class Host {
    /**
     * The host's answer to `buffer_search(plugin, name)`, taken as fixed
     * while the host lives (WeeChat's real answer follows the open buffers).
     */
    const search: (string, string) -> BufferPointer
    /** Every `buffer_search` query made so far, oldest first. */
    var lookups: seq<(string, string)>
    /** Every line printed so far, oldest first. */
    var emitted: seq<Emission>

    constructor (search: (string, string) -> BufferPointer)
      ensures this.search == search
      ensures lookups == [] && emitted == []
    {
      this.search := search;
      lookups := [];
      emitted := [];
    }

    /** `weechat.buffer_search(plugin, name)`: a lookup that prints nothing. */
    method BufferSearch(plugin: string, name: string) returns (buffer: BufferPointer)
      modifies this`lookups
      ensures buffer == search(plugin, name)
      ensures lookups == old(lookups) + [(plugin, name)]
    {
      buffer := search(plugin, name);
      lookups := lookups + [(plugin, name)];
    }

    /** `weechat.prnt_date_tags(buffer, date, tags, message)`: one more printed line. */
    method PrntDateTags(buffer: BufferPointer, date: int, tags: string, message: string)
      modifies this`emitted
      ensures emitted == old(emitted) + [Emission(buffer, date, tags, message)]
    {
      emitted := emitted + [Emission(buffer, date, tags, message)];
    }
  }
}
