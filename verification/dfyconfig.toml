includes = ["**/*.dfy"]

[options]
resource-limit = 2000000
