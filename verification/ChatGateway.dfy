/** The gateway's handlers, updating their two maps in place. */
module ChatGateway {
  import opened Options
  import opened ChatRegistry

  class ChatGateway {
    var connectedUsers: map<UserId, SocketId>
    var socketToUser: map<SocketId, UserId>
    /** `userId` as attached to each client. */
    var clientUser: map<SocketId, UserId>
    /** Sockets whose disconnect handler has run. */
    var gone: set<SocketId>
    ghost var late: set<SocketId>

    ghost function View(): State
      reads this
    {
      State(connectedUsers, socketToUser, clientUser, gone, late)
    }

    constructor ()
      ensures View() == EMPTY
    {
      connectedUsers, socketToUser, clientUser, gone, late := map[], map[], map[], {}, {};
    }

    /** `verified` is the user of the token once it has been verified, if there is one. A client
        that is turned away is disconnected, which runs its disconnect handler if it is open. */
    method HandleConnection(client: SocketId, verified: Option<UserId>, replacement: Replacement)
      modifies this
      ensures verified.None? ==>
                View() == if client in old(gone) then old(View()) else Step(old(View()), Disconnect(client))
      ensures verified.Some? ==> View() == Step(old(View()), Register(client, verified.value, replacement))
    {
      if verified.None? {
        TurnAway(client);
        return;
      }
      var user := verified.value;
      clientUser := clientUser[client := user];
      late := if client in gone then late + {client} else late;
      if user in connectedUsers {
        var existingSocketId := connectedUsers[user];
        if replacement == Throws {
          TurnAway(client);
          return;
        }
        if replacement == AtOnce && existingSocketId !in gone {
          HandleDisconnect(existingSocketId);
        }
      }
      connectedUsers := connectedUsers[user := client];
      socketToUser := socketToUser[client := user];
    }

    method TurnAway(client: SocketId)
      modifies this
      ensures View() == if client in old(gone) then old(View()) else Close(old(View()), client)
    {
      if client !in gone { HandleDisconnect(client); }
    }

    method HandleDisconnect(client: SocketId)
      modifies this
      ensures View() == Step(old(View()), Disconnect(client))
    {
      gone := gone + {client};
      if client in clientUser {
        connectedUsers := connectedUsers - {clientUser[client]};
        socketToUser := socketToUser - {client};
      }
    }

    /** `atOnce` tells whether closing the socket runs its disconnect handler before returning. */
    method DisconnectUser(userId: UserId, atOnce: bool) returns (done: bool)
      modifies this
      ensures done == (userId in old(connectedUsers) && old(connectedUsers)[userId] !in old(gone))
      ensures View() == if done && atOnce then Step(old(View()), Disconnect(old(connectedUsers)[userId])) else old(View())
    {
      if userId !in connectedUsers { return false; }
      var socketId := connectedUsers[userId];
      if socketId in gone { return false; }
      if atOnce { HandleDisconnect(socketId); }
      return true;
    }

    /** Whatever events led here, a user is online whose last event was joining. */
    predicate IsUserOnline(userId: UserId): (online: bool)
      reads this
      ensures forall events :: Legal(EMPTY, events) && Run(EMPTY, events) == View() ==>
                (online <==> userId in Joined(events))
    {
      OnlineAfterAnyRun(View());
      userId in connectedUsers
    }

    function GetConnectedUsersCount(): (count: nat)
      reads this
      ensures forall events :: Legal(EMPTY, events) && Run(EMPTY, events) == View() ==> count == |Joined(events)|
    {
      OnlineAfterAnyRun(View());
      |connectedUsers|
    }
  }
}
