/** One client per base URL, created on first use and kept. */
module ClientPool {

  class Client {
    const baseURL: string
    const timeout: int

    constructor (baseURL: string, timeout: int)
      ensures this.baseURL == baseURL && this.timeout == timeout
    {
      this.baseURL, this.timeout := baseURL, timeout;
    }
  }

  class Pool {
    var clients: map<string, Client>
    const timeout: int

    ghost predicate Valid()
      reads this
    {
      "" !in clients && forall u :: u in clients ==> clients[u].baseURL == u && clients[u].timeout == timeout
    }

    constructor (timeout: int)
      ensures Valid() && clients == map[] && this.timeout == timeout
    {
      clients, this.timeout := map[], timeout;
    }

    /** null stands for the error on an empty URL. */
    method ForBaseURL(baseURL: string) returns (c: Client?)
      requires Valid()
      modifies this`clients
      ensures Valid()
      ensures c == null <==> baseURL == ""
      ensures c == null ==> clients == old(clients)
      ensures c != null ==> clients == old(clients)[baseURL := c] && c.baseURL == baseURL
      ensures baseURL in old(clients) ==> c == old(clients)[baseURL]
      ensures c != null && baseURL !in old(clients) ==> fresh(c)
    {
      if baseURL == "" {
        return null;
      }
      if baseURL !in clients {
        var created := new Client(baseURL, timeout);
        clients := clients[baseURL := created];
      }
      c := clients[baseURL];
    }
  }
}
