/**
 * The secure-shell extension the session delegates to (ssh2_connect,
 * ssh2_auth_password, ssh2_exec, ssh2_sftp, ssh2_sftp_mkdir, ssh2_scp_recv,
 * ssh2_scp_send, ssh2_tunnel and the sftp stream wrapper's opendir/readdir).
 *
 * Its behaviour is not modelled: every primitive returns a value the verifier
 * cannot predict, and records the call together with that value in a ghost log.
 * Channels and directory handles are finite sequences read one element at a time.
 */
module Transport {

  datatype Option<+T> = None | Some(value: T)

  /** Opaque identities of the extension's resources. */
  type Handle = nat      // a session resource from ssh2_connect
  type SftpHandle = nat  // an SFTP subsystem resource from ssh2_sftp
  type Stream = nat      // a forwarding stream from ssh2_tunnel

  /** PHP's truthiness of a string: exactly "" and "0" convert to false. */
  predicate Falsy(s: string)
  {
    s == "" || s == "0"
  }

  /** One directory entry: the name readdir yields and what filetype answers for it. */
  datatype Entry = Entry(name: string, kind: Option<string>)

  /** One call into the extension, with the answer it gave. */
  datatype Call =
    | Dial(host: string, port: int, dialed: Option<Handle>)
    | Auth(conn: Handle, login: string, password: string, ok: bool)
    | ExecCall(conn: Handle, command: string, chunks: Option<seq<string>>)
    | SftpCall(conn: Handle, subsystem: Option<SftpHandle>)
    | MkdirCall(sftp: SftpHandle, path: string, mode: int, ok: bool)
    | OpenDirCall(sftp: SftpHandle, path: string, entries: Option<seq<Entry>>)
    | RecvCall(conn: Handle, remote: string, local: string, ok: bool)
    | SendCall(conn: Handle, local: string, remote: string, mode: int, ok: bool)
    | TunnelCall(conn: Handle, host: string, port: int, stream: Option<Stream>)

  /** An execution channel: the chunks successive reads return, then end of stream. */
  class Channel {
    const chunks: seq<string>
    var pos: nat

    ghost predicate Valid()
      reads this
    {
      pos <= |chunks|
    }

    constructor (chunks: seq<string>)
      ensures Valid() && this.chunks == chunks && pos == 0
    {
      this.chunks := chunks;
      pos := 0;
    }

    /** A read of the next chunk; at end of stream it yields "". */
    method Read() returns (b: string)
      requires Valid()
      modifies this
      ensures Valid()
      ensures old(pos) < |chunks| ==> b == chunks[old(pos)] && pos == old(pos) + 1
      ensures old(pos) == |chunks| ==> b == "" && pos == old(pos)
    {
      if pos < |chunks| {
        b := chunks[pos];
        pos := pos + 1;
      } else {
        b := "";
      }
    }
  }

  /** An open directory: the entries successive reads return, then false. */
  class Dir {
    const entries: seq<Entry>
    var pos: nat

    ghost predicate Valid()
      reads this
    {
      pos <= |entries|
    }

    constructor (entries: seq<Entry>)
      ensures Valid() && this.entries == entries && pos == 0
    {
      this.entries := entries;
      pos := 0;
    }

    method Read() returns (e: Option<Entry>)
      requires Valid()
      modifies this
      ensures Valid()
      ensures old(pos) < |entries| ==> e == Some(entries[old(pos)]) && pos == old(pos) + 1
      ensures old(pos) == |entries| ==> e.None? && pos == old(pos)
    {
      if pos < |entries| {
        e := Some(entries[pos]);
        pos := pos + 1;
      } else {
        e := None;
      }
    }
  }

  /** The extension itself; `log` lists every call made into it, oldest first. */
  class Transport {
    ghost var log: seq<Call>

    constructor ()
      ensures log == []
    {
      log := [];
    }

    method Connect(host: string, port: int) returns (conn: Option<Handle>)
      modifies this
      ensures log == old(log) + [Dial(host, port, conn)]
    {
      conn := *;
      log := log + [Dial(host, port, conn)];
    }

    method AuthPassword(conn: Handle, login: string, password: string) returns (ok: bool)
      modifies this
      ensures log == old(log) + [Auth(conn, login, password, ok)]
    {
      ok := *;
      log := log + [Auth(conn, login, password, ok)];
    }

    /** Opens an execution channel for `command`, or fails (null). */
    method Exec(conn: Handle, command: string) returns (ch: Channel?)
      modifies this
      ensures ch != null ==> fresh(ch) && ch.Valid() && ch.pos == 0
      ensures log == old(log) + [ExecCall(conn, command, if ch == null then None else Some(ch.chunks))]
    {
      var succeeds: bool := *;
      if succeeds {
        var chunks: seq<string> := *;
        ch := new Channel(chunks);
      } else {
        ch := null;
      }
      log := log + [ExecCall(conn, command, if ch == null then None else Some(ch.chunks))];
    }

    method Sftp(conn: Handle) returns (sftp: Option<SftpHandle>)
      modifies this
      ensures log == old(log) + [SftpCall(conn, sftp)]
    {
      sftp := *;
      log := log + [SftpCall(conn, sftp)];
    }

    method SftpMkdir(sftp: SftpHandle, path: string, mode: int) returns (ok: bool)
      modifies this
      ensures log == old(log) + [MkdirCall(sftp, path, mode, ok)]
    {
      ok := *;
      log := log + [MkdirCall(sftp, path, mode, ok)];
    }

    /** Opens directory `path` through the sftp stream wrapper, or fails (null). */
    method OpenDir(sftp: SftpHandle, path: string) returns (d: Dir?)
      modifies this
      ensures d != null ==> fresh(d) && d.Valid() && d.pos == 0
      ensures log == old(log) + [OpenDirCall(sftp, path, if d == null then None else Some(d.entries))]
    {
      var succeeds: bool := *;
      if succeeds {
        var entries: seq<Entry> := *;
        d := new Dir(entries);
      } else {
        d := null;
      }
      log := log + [OpenDirCall(sftp, path, if d == null then None else Some(d.entries))];
    }

    method ScpRecv(conn: Handle, remote: string, local: string) returns (ok: bool)
      modifies this
      ensures log == old(log) + [RecvCall(conn, remote, local, ok)]
    {
      ok := *;
      log := log + [RecvCall(conn, remote, local, ok)];
    }

    method ScpSend(conn: Handle, local: string, remote: string, mode: int) returns (ok: bool)
      modifies this
      ensures log == old(log) + [SendCall(conn, local, remote, mode, ok)]
    {
      ok := *;
      log := log + [SendCall(conn, local, remote, mode, ok)];
    }

    method Tunnel(conn: Handle, host: string, port: int) returns (stream: Option<Stream>)
      modifies this
      ensures log == old(log) + [TunnelCall(conn, host, port, stream)]
    {
      stream := *;
      log := log + [TunnelCall(conn, host, port, stream)];
    }
  }
}
