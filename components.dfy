/** The calendar tree (parser.go:11-35) and its factories `NewCalendar`,
    `NewEvent` and `NewAlarm` (parser.go:78-106).  Components are objects:
    the parser keeps writing to an event or alarm through `p.v` and `p.a`
    after it has been appended to its parent. */
module Components {
  import opened Properties
  import opened Dates
  import opened Validation

  class Alarm {
    var action: string
    var trigger: string
    var properties: seq<Property>

    /** `NewAlarm`. */
    constructor ()
      ensures action == "" && trigger == "" && properties == []
    {
      action := "";
      trigger := "";
      properties := [];
    }
  }

  class Event {
    var uid: string
    var timestamp: Time
    var startDate: Time
    var endDate: Time
    var summary: string
    var description: string
    var properties: seq<Property>
    var alarms: seq<Alarm>

    /** The fields `validateEvent` writes. */
    function Fields(): EventFields
      reads this
    {
      EventFields(uid, timestamp, startDate, endDate, summary, description)
    }

    /** `NewEvent`: zero fields and empty lists. */
    constructor ()
      ensures Fields() == NewEventFields && properties == [] && alarms == []
    {
      uid := "";
      timestamp := ZeroTime;
      startDate := ZeroTime;
      endDate := ZeroTime;
      summary := "";
      description := "";
      properties := [];
      alarms := [];
    }
  }

  class Calendar {
    var prodid: string
    var version: string
    var calscale: string
    var calMethod: string
    var properties: seq<Property>
    var events: seq<Event>

    /** The four fields `validateCalendar` writes. */
    function Header(): (string, string, string, string)
      reads this
    {
      (prodid, version, calscale, calMethod)
    }

    /** `NewCalendar`: CALSCALE defaults to GREGORIAN. */
    constructor ()
      ensures Header() == ("", "", "GREGORIAN", "") && properties == [] && events == []
    {
      prodid := "";
      version := "";
      calscale := "GREGORIAN";
      calMethod := "";
      properties := [];
      events := [];
    }
  }
}
