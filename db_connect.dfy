/** The chat-history store: a connection to a hosted table, opened once when
    the store is created, and `save_chat`, which inserts one record. The remote
    table is modelled as a sequence of records held by the store. */
module Db {
  import opened Wrappers
  import opened Py

  /** One row of the `chat_history` table. `response` is `None` when the
      model's reply had no text content. */
  datatype ChatRecord = ChatRecord(
    userEmail: string,
    query: string,
    response: Option<string>,
    fileName: Option<string>,
    createdAt: string)

  /** What happens when the store tries to reach the table: the client cannot
      be created, the test query `select("*").limit(1)` raises, or both succeed. */
  datatype Probe = ClientFails(reason: string) | QueryFails(reason: string) | Reachable

  /** The result of `table("chat_history").insert(data).execute()`: it raises,
      or returns a response that has a `data` attribute or not. */
  datatype InsertOutcome = InsertRaised(reason: string) | Inserted(hasData: bool)

  /** A created client, bound to the endpoint and key it was made from. */
  datatype Client = Client(url: string, key: string)

  /** The dictionary returned by `check_connection`. */
  datatype ConnectionStatus = ConnectionStatus(status: string, url: Option<string>, error: Option<string>)

  const UrlEnv := "SUPABASE_URL"
  const KeyEnv := "SUPABASE_KEY"
  const NotConnectedError := "Could not connect to Supabase"
  /** How many characters of the endpoint `check_connection` shows. */
  const UrlShown := 30

  /** The credential check of `_initialize_connection`: both values set and non-empty. */
  predicate HasCredentials(url: Option<string>, key: Option<string>) {
    Truthy(url) && Truthy(key)
  }

  class DatabaseConnect {
    const supabaseUrl: Option<string>
    const supabaseKey: Option<string>
    var client: Option<Client>
    var isConnected: bool
    /** The rows of the remote `chat_history` table. */
    var table: seq<ChatRecord>

    ghost predicate Valid()
      reads this
    {
      isConnected ==> client.Some?
    }

    /** `DatabaseConnect()`: reads the two credentials from the environment and
        tries once to connect; `existing` is what the remote table holds. */
    constructor (env: map<string, string>, probe: Probe, existing: seq<ChatRecord>)
      ensures Valid()
      ensures supabaseUrl == GetEnv(env, UrlEnv) && supabaseKey == GetEnv(env, KeyEnv)
      ensures table == existing
      ensures isConnected <==> HasCredentials(supabaseUrl, supabaseKey) && probe.Reachable?
      ensures client == if HasCredentials(supabaseUrl, supabaseKey) && !probe.ClientFails?
                        then Some(Client(supabaseUrl.value, supabaseKey.value)) else None
    {
      supabaseUrl := GetEnv(env, UrlEnv);
      supabaseKey := GetEnv(env, KeyEnv);
      client := None;
      table := existing;
      new;
      isConnected := InitializeConnection(probe);
    }

    /** `_initialize_connection`: a missing credential raises before any client
        exists; otherwise the client is created and tested, and any exception
        turns into `False`. */
    method InitializeConnection(probe: Probe) returns (ok: bool)
      requires client.None?
      modifies this`client
      ensures ok <==> HasCredentials(supabaseUrl, supabaseKey) && probe.Reachable?
      ensures client == if HasCredentials(supabaseUrl, supabaseKey) && !probe.ClientFails?
                        then Some(Client(supabaseUrl.value, supabaseKey.value)) else None
    {
      if !HasCredentials(supabaseUrl, supabaseKey) {
        return false;
      }
      if probe.ClientFails? {
        return false;
      }
      client := Some(Client(supabaseUrl.value, supabaseKey.value));
      ok := probe.Reachable?;
    }

    /** `check_connection`: the status says "connected" exactly when the store is
        connected, carries an error exactly when it is not, and shows at most the
        first 30 characters of the endpoint followed by "...". */
    function CheckConnection(): (s: ConnectionStatus)
      reads this
      ensures s.status == (if isConnected then "connected" else "disconnected")
      ensures s.error.None? <==> isConnected
      ensures s.error.Some? ==> s.error.value == NotConnectedError
      ensures s.url.None? <==> !Truthy(supabaseUrl)
      ensures s.url.Some? ==> |s.url.value| <= UrlShown + 3 && EndsWith(s.url.value, "...")
      ensures s.url.Some? ==> StartsWith(supabaseUrl.value, s.url.value[..|s.url.value| - 3])
      ensures s.url.Some? && |supabaseUrl.value| >= UrlShown ==> |s.url.value| == UrlShown + 3
      ensures s.url.Some? && |supabaseUrl.value| <= UrlShown ==> s.url.value == supabaseUrl.value + "..."
    {
      ConnectionStatus(
        if isConnected then "connected" else "disconnected",
        if Truthy(supabaseUrl) then Some(Shown(supabaseUrl.value) + "...") else None,
        if isConnected then None else Some(NotConnectedError))
    }

    /** `save_chat`: does nothing and answers `False` when not connected;
        otherwise inserts one record stamped with `now` and answers whether the
        insert's result has `data`. An exception from the insert is swallowed and
        answered with `False`. */
    method SaveChat(userEmail: string, query: string, response: Option<string>,
                    fileName: Option<string>, now: string, insert: InsertOutcome)
      returns (ok: bool)
      requires Valid()
      modifies this`table
      ensures !isConnected ==> !ok && table == old(table)
      ensures isConnected && insert.InsertRaised? ==> !ok && table == old(table)
      ensures isConnected && insert.Inserted? ==>
                ok == insert.hasData
                && table == old(table) + [ChatRecord(userEmail, query, response, fileName, now)]
    {
      if !isConnected {
        return false;
      }
      var data := ChatRecord(userEmail, query, response, fileName, now);
      match insert
      case InsertRaised(_) =>
        ok := false;
      case Inserted(hasData) =>
        table := table + [data];
        ok := hasData;
    }
  }

  /** `url[:30]`. */
  function Shown(url: string): (r: string)
    ensures |r| <= UrlShown && StartsWith(url, r)
    ensures |url| >= UrlShown ==> |r| == UrlShown
    ensures |url| <= UrlShown ==> r == url
  {
    if |url| <= UrlShown then url else url[..UrlShown]
  }
}
