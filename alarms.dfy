/** chrome.alarms: named one-shot alarms with an absolute fire time in ms. */
module Alarms {
  const FocusTimer := "focusTimer"

  class AlarmTable {
    var table: map<string, int>

    constructor ()
      ensures table == map[]
    {
      table := map[];
    }

    /** `chrome.alarms.clear(name)`: cancels the alarm of that name, if any. */
    method Clear(name: string)
      modifies this
      ensures table == old(table) - {name}
    {
      table := table - {name};
    }

    /** `chrome.alarms.create(name, { when })`: an alarm of the same name is replaced. */
    method Create(name: string, when: int)
      modifies this
      ensures table == old(table)[name := when]
    {
      table := table[name := when];
    }
  }
}
