/** The records that the components exchange (pkg/models/models.go).  A Go `*bool` is an
    Option<bool>; times are integers (nanoseconds). */
module Models {

  datatype Option<+T> = None | Some(value: T)

  /** Go durations are nanoseconds. */
  const MINUTE: int := 60_000_000_000

  datatype Host = Host(
    id: string, use: string, address: string, checkCommand: string, checkPeriod: string,
    contacts: seq<string>, hostGroups: seq<string>, register: Option<bool>, inDowntime: bool,
    parents: seq<string>,
    isUp: bool, status: int, nextCheck: int, output: string)

  datatype Service = Service(
    id: string, use: string, hostName: string, checkCommand: string, checkPeriod: string,
    contacts: seq<string>, serviceGroups: seq<string>, register: Option<bool>, inDowntime: bool,
    currentState: int, attempts: int, maxAttempts: int, nextCheck: int, output: string)

  /** Host groups and service groups have the same three fields. */
  datatype Group = Group(id: string, alias: string, members: seq<string>)

  datatype Command = Command(id: string, commandLine: string)

  datatype Contact = Contact(id: string, register: Option<bool>, email: string)

  /** `days` holds the seven lists of ranges, Monday first. */
  datatype TimePeriod = TimePeriod(id: string, register: Option<bool>, days: seq<seq<string>>)

  datatype Downtime = Downtime(
    id: string, hostName: string, serviceId: string, startTime: int, endTime: int,
    author: string, comment: string)

  datatype GlobalConfig = GlobalConfig(
    commands: seq<Command>, contacts: seq<Contact>, timePeriods: seq<TimePeriod>,
    hosts: seq<Host>, services: seq<Service>,
    hostGroups: seq<Group>, serviceGroups: seq<Group>, downtimes: seq<Downtime>)

  datatype CheckTask = CheckTask(id: string, command: string)

  datatype CheckResult = CheckResult(id: string, status: int, output: string)

  /** An object definition is a template when it says `register: false`. */
  predicate IsTemplate(register: Option<bool>) {
    register == Some(false)
  }

  function HostIds(hosts: seq<Host>): set<string> {
    set h | h in hosts :: h.id
  }

  function ServiceIds(services: seq<Service>): set<string> {
    set s | s in services :: s.id
  }
}
